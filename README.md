# Readers, IgnoreCaseDict and the reader registry of `central` (configd)

This project models the configuration readers of the `central` package as its
test suite `tests/test_readers.py` pins them down. The implementation modules
`central/readers.py`, `central/structures.py` and `central/exceptions.py` are
not part of this model. Every contract below is derived from the assertions of
that test file; what goes beyond them is listed under the decisions below.

- `results.dfy` (module `Results`): the exceptions callers observe
  (`TypeError`, `ValueError`, `LibraryRequiredError`), Python's `None` as
  `Option`, and `Outcome`, a value or the exception raised instead.
- `structures.dfy` (module `Structures`): `IgnoreCaseDict`, a nested mapping
  whose keys are stored under their ASCII case-folded form. `get` folds the key
  it is given, so every casing of a key finds the same entry, at every level.
  Parser output (`Plain`, an ordered mapping with exact keys) is turned into an
  `IgnoreCaseDict` level by level by `Wrap`/`WrapItems`. Folding is proved to
  agree with an independent position-by-position notion of "equal up to case",
  and the wrapping is proved to keep the document's content.
- `readers.dfy` (module `Readers`): the four readers (INI, JSON, TOML, YAML).
  Construction takes the set of importable optional libraries as an explicit
  `Libraries` value, checked on every construction. TOML and YAML fail with
  `LibraryRequiredError` when their library is absent. `read` refuses a `None`
  stream with `ValueError` and otherwise returns the document as an
  `IgnoreCaseDict`.
- `registry.dfy` (module `Registry`): the process-wide name to reader-class
  table as a class `ReaderRegistry` with a `map` field. `AddReader` and
  `RemoveReader` update it in place. `GetReader` only reads it. A name argument
  is a `NameArg` (a string, `None` or an integer), so the `TypeError` paths can
  be stated. The method `ManageReaders` replays the registry tests (lines
  80-125) against the method contracts alone.

Decisions where the tests leave a choice open:

- When both the name and the class are bad, `add_reader` reports the name's
  `TypeError` first. The tests only try one bad argument at a time.
- When a parsed mapping holds two keys equal up to case, the later one wins,
  because entries are inserted in document order and insertion overwrites.
- INI and JSON readers are always constructible: their parsers come with
  Python itself. Only TOML and YAML depend on an optional library.
- `LibraryRequiredError` carries the name of the missing library (`toml` or
  `yaml`). The tests only check the exception's type.
- Keys are folded to lower case for storage, ASCII letters only.

## Model

| member | source | states |
|---|---|---|
| Structures.Fold | tests/test_readers.py:32-33 | the stored form of a key is equal to it up to case and has no capital letters left |
| Structures.FoldIdempotent | tests/test_readers.py:32-33 | folding a stored (folded) key leaves it unchanged |
| Structures.SameFoldIff | tests/test_readers.py:32-33 | two keys share a stored form if and only if they are equal up to ASCII case, position by position |
| Structures.IgnoreCaseDict.Get | tests/test_readers.py:32-33 | a found value is stored under a key equal to the requested one up to case |
| Structures.GetIgnoresCase | tests/test_readers.py:32-33 | `get` returns the same answer for any two casings of a key (`get('Database')` and `get('database')`) |
| Structures.GetFindsAnyCase | tests/test_readers.py:32-33 | in a valid dictionary `get` finds nothing exactly when no stored key matches up to case, and otherwise returns the matching entry |
| Structures.IgnoreCaseDict.Set | tests/test_readers.py:30-33 | inserting keeps every level case-folded and overwrites an entry equal up to case instead of adding a duplicate |
| Structures.GetAfterSet | tests/test_readers.py:30-33 | after an insert, every casing of the key finds the new value and every other lookup is unchanged |
| Structures.Wrap | tests/test_readers.py:30-33 | a wrapped parser value is a scalar exactly when the parser's was, a scalar keeps its text, and every nested section is itself a valid case-insensitive dictionary |
| Structures.WrapItems | tests/test_readers.py:28-33 | the dictionary built from a parsed mapping is valid at every level and has no more entries than the mapping has items |
| Structures.WrapItemsGet | tests/test_readers.py:20-33 | a lookup in the built dictionary returns the wrapped value of the last parsed item whose key matches up to case, and None when none does |
| Readers.NewReader | tests/test_readers.py:48-77 | building a reader fails if and only if it is TOML without the toml library or YAML without the yaml library, and then with `LibraryRequiredError` naming that library |
| Readers.Read | tests/test_readers.py:11-13 | `read` fails with `ValueError` if and only if the stream is None; what it returns is a valid case-insensitive dictionary |
| Readers.ReadNoneFails | tests/test_readers.py:10-13 | every reader that can be built refuses a None stream with `ValueError` |
| Readers.ReadKeepsContent | tests/test_readers.py:15-21 | `read` succeeds on every stream, and the result holds the document's content under every casing of its keys |
| Readers.ReadNestedScalar | tests/test_readers.py:32-33 | for every document, `get(section).get(key)` on the read result gives the scalar text the document holds under that section and key, whatever the casing of either |
| Readers.ReadSample | tests/test_readers.py:15-33 | reading the test document gives `{'database': {'host': 'localhost', 'port': '1234'}}`, and `get('Database')` then `get('Host')` gives `'localhost'` |
| Registry.ReaderRegistry.AddReader | tests/test_readers.py:80-99 | a non-string name raises `TypeError` and a None class `ValueError`, both leaving the table unchanged; otherwise the name maps to the class and nothing else changes |
| Registry.ReaderRegistry.GetReader | tests/test_readers.py:97-110 | a non-string name raises `TypeError` and nothing else does; a string name gives the registered class, or None exactly when the name is not registered |
| Registry.ReaderRegistry.RemoveReader | tests/test_readers.py:112-125 | a non-string name raises `TypeError` and leaves the table alone; a string name returns the class it had, or None when it had none, and is no longer in the table |

## Left out

- Parsing of INI, JSON, TOML and YAML text: it belongs to the format libraries. A stream is represented by the plain mapping its library would produce (`Readers.Document`).
- Reading from the stream and its position handling: stream I/O.
- Parse errors raised by the format libraries: they are not visible here.
- Lists and non-string scalars in parsed documents: the tests only use string scalars and nested sections.
- Unicode case folding: keys are folded for ASCII letters only.
- The original casing of keys, kept for display and iteration: the model stores only the folded key.
- The rest of the dictionary's mapping interface: the insertion order of entries (a `map` has none), `get` with a default argument, `len`, `in`, deletion and iteration. The tests use only `get`; item assignment is modelled because building the dictionary needs it.
- Equality of an `IgnoreCaseDict` with a plain Python dict literal: the model compares its own values instead (`Readers.ReadSample`).
- Swapping the `toml` and `yaml` module attributes of the readers module: replaced by the explicit `Libraries` argument.
- The readers registered in advance when the process starts: they are not visible in the test file, so the constructor takes the initial table as a parameter.
- Locking around the registry: the tests show no concurrency.
