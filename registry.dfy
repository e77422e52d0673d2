/**
 * The process-wide reader registry behind `add_reader`, `get_reader` and
 * `remove_reader`: a table from a reader name to a reader class. Names must
 * be strings (anything else is a TypeError, raised before the table is
 * touched), a None class cannot be added (ValueError), and an unknown name
 * is answered with None rather than an error.
 */
module Registry {
  import opened Results
  import opened Readers

  /** A reader class: one of the built-in readers, or a caller's own class, told apart by its name. */
  datatype ReaderKind = BuiltIn(format: Format) | Custom(className: string)

  /** A Python value passed where a reader name is expected. */
  datatype NameArg = NoneName | IntName(number: int) | StrName(name: string)

  class ReaderRegistry {
    var readers: map<string, ReaderKind>

    /** The registry as the process starts it, holding the readers registered in advance. */
    constructor (initial: map<string, ReaderKind>)
      ensures readers == initial
    {
      readers := initial;
    }

    /** `add_reader(name, cls)`: register `cls` under `name`, replacing what was there. */
    method AddReader(name: NameArg, cls: Option<ReaderKind>) returns (r: Outcome<()>)
      modifies this
      ensures !name.StrName? ==> r == Err(TypeError) && readers == old(readers)
      ensures name.StrName? && cls.None? ==> r == Err(ValueError) && readers == old(readers)
      ensures name.StrName? && cls.Some? ==> r == Ok(()) && readers == old(readers)[name.name := cls.value]
    {
      if !name.StrName? {
        return Err(TypeError);
      }
      if cls.None? {
        return Err(ValueError);
      }
      readers := readers[name.name := cls.value];
      r := Ok(());
    }

    /** `get_reader(name)`: the class registered under `name`, or None when there is none. */
    method GetReader(name: NameArg) returns (r: Outcome<Option<ReaderKind>>)
      ensures !name.StrName? <==> r == Err(TypeError)
      ensures name.StrName? ==> r.Ok? && (r.value.Some? <==> name.name in readers)
      ensures r.Ok? && r.value.Some? ==> r.value.value == readers[name.name]
    {
      if !name.StrName? {
        return Err(TypeError);
      }
      if name.name in readers {
        r := Ok(Some(readers[name.name]));
      } else {
        r := Ok(None);
      }
    }

    /** `remove_reader(name)`: take the entry for `name` out and return its class, or None. */
    method RemoveReader(name: NameArg) returns (r: Outcome<Option<ReaderKind>>)
      modifies this
      ensures !name.StrName? ==> r == Err(TypeError) && readers == old(readers)
      ensures name.StrName? ==> r.Ok? && (r.value.Some? <==> name.name in old(readers))
      ensures name.StrName? && r.value.Some? ==> r.value.value == old(readers)[name.name]
      ensures name.StrName? ==> readers == old(readers) - {name.name}
    {
      if !name.StrName? {
        return Err(TypeError);
      }
      if name.name in readers {
        r := Ok(Some(readers[name.name]));
        readers := readers - {name.name};
      } else {
        r := Ok(None);
      }
    }
  }

  /**
   * The registry's whole life as a caller sees it: a name added is found,
   * removing it returns the class and forgets it, unknown names give None,
   * a non-string name is a TypeError and a None class a ValueError.
   */
  method ManageReaders()
  {
    var json := BuiltIn(Json);
    var registry := new ReaderRegistry(map["ini" := BuiltIn(Ini), "json" := json]);

    var added := registry.AddReader(StrName("render"), Some(json));
    assert added == Ok(());
    var found := registry.GetReader(StrName("render"));
    assert found == Ok(Some(json));

    var again := registry.AddReader(StrName("render"), Some(json));
    assert again == Ok(());
    found := registry.GetReader(StrName("render"));
    assert found == Ok(Some(json));

    var badName := registry.AddReader(NoneName, Some(json));
    assert badName == Err(TypeError);
    badName := registry.AddReader(IntName(123), Some(json));
    assert badName == Err(TypeError);
    var badClass := registry.AddReader(StrName("render"), None);
    assert badClass == Err(ValueError);

    var missing := registry.GetReader(StrName("not_found"));
    assert missing == Ok(None);
    missing := registry.GetReader(NoneName);
    assert missing == Err(TypeError);
    missing := registry.GetReader(IntName(123));
    assert missing == Err(TypeError);

    var removed := registry.RemoveReader(NoneName);
    assert removed == Err(TypeError);
    removed := registry.RemoveReader(IntName(123));
    assert removed == Err(TypeError);
    removed := registry.RemoveReader(StrName("render"));
    assert removed == Ok(Some(json));
    found := registry.GetReader(StrName("render"));
    assert found == Ok(None);
    removed := registry.RemoveReader(StrName("not_found"));
    assert removed == Ok(None);
  }
}
