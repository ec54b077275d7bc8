# Audible library exporter: the record transformation

`audibleLibrary.py` downloads a user's Audible library listing and writes it to
`data/library.csv`, one row per purchased audiobook. This project models the
part of the exporter that turns the decoded listing into CSV records, and it
proves what that part guarantees:

- `convert_time` turns a runtime in minutes into the pair (minutes, "H:MM").
  Its fallback is (0, "0:00").
- `get_contributors` joins the `name` of every author or narrator record with
  ';'. Its fallback is the all-or-nothing sentinel "N/A".
- The loop of `get_library` projects every library item onto a 7-field row.
  Missing keys get their defaults.
- `write_library` writes a header of 7 column names followed by the rows.

The decoded listing is a value of `Payload.Json`: null, bool, int, string,
list, or an object that keeps its members in insertion order, as a Python dict
does. The Python operations the exporter applies to it are written out:

- `dict.get` with a default;
- `for` over a list, a str or a dict;
- `//` and `%` by 60, which agree with Dafny's Euclidean operators for a
  positive divisor;
- `str()` of an int, `str.zfill` and `str.join`.

An exception that the exporter catches becomes the value it returns instead.
An exception it does not catch stops the export. The model gives the second
kind as a `Failure` carrying an `AudibleLibrary.Crash`.

Modules:

- `Payload`: the decoded JSON value, lookup, `get`, iteration.
- `Text`: decimal formatting and parsing, `zfill`, `join` and its inverse
  `split`.
- `Runtime`: `convert_time`.
- `Contributors`: `get_contributors`.
- `AudibleLibrary`: the row projection, the `get_library` loop, a csv writer
  object, `write_library`, and the two composed as in `main`.

The model follows the code, including behaviour a reader might not expect:

- The docstring of `convert_time` types the runtime as `(int)`. The code
  formats any int, negative ones included, so -1 gives "-1:59".
- A bool runtime does not take the (0, "0:00") fallback. Python treats a bool
  as the int 0 or 1, so `true` is passed through with "0:01".
- The docstring of `get_contributors` says only "names or 'N/A'". "N/A" comes
  from any TypeError or KeyError: a value that cannot be iterated, an element
  that is not a dict or has no `name`, and also a `name` that is not a string,
  because `';'.join` then raises TypeError.
- A contributor value that is a single non-empty dict is iterated over its
  keys. That also gives "N/A". An empty dict, like an empty list, gives "".
- The docstring of `convert_time` promises 'HH:MM'. The code leaves the hours
  unpadded, so 125 gives "2:05".
- Only `convert_time` and `get_contributors` catch errors. An item that is not
  a dict, an `items` value that cannot be iterated, or a listing that is not a
  dict raise an exception nothing catches, and the export stops.

## Model

| member | source | states |
|---|---|---|
| Runtime.FormatHMShape | audibleLibrary.py:28-30 | `FormatHM` models lines 28-30. For every int, the text is the hours `m // 60`, a colon, and exactly two digits worth `m % 60` in 0..59. This holds for negative runtimes too, because zfill pads one digit and leaves two alone. |
| Runtime.FormatHMRoundTrip | audibleLibrary.py:28-30 | Reading the "H:MM" text back as 60*H + MM gives the original minutes for every int, so the text determines the runtime. |
| Runtime.ConvertTime | audibleLibrary.py:17-34 | An int comes back unchanged, with the text `str(m // 60)`, a colon and the two digits of `m % 60`, which reads back as that int. A bool comes back unchanged, with "0:01" or "0:00". Every other value (None, a string, a list, a dict) gives exactly (0, "0:00"). |
| Runtime.ZeroRuntime | audibleLibrary.py:92-93 | The default runtime 0 gives (0, "0:00"). |
| Runtime.ConvertTimeExamples | audibleLibrary.py:27-34 | 125 gives "2:05", 59 gives "0:59", 0 gives "0:00" and -1 gives "-1:59". True gives "0:01". None and "90" give (0, "0:00"). |
| Text.IntToStringRoundTrip | audibleLibrary.py:30 | Parsing `str(i)` as a signed decimal gives back `i` for every int. |
| Text.ZFill | audibleLibrary.py:30 | `zfill(width)` yields max(len, width) characters. |
| Text.SplitJoin | audibleLibrary.py:48 | Splitting on ';' undoes `';'.join` of one or more parts that contain no ';'. |
| Payload.LookupFindsKey | audibleLibrary.py:87-92 | A lookup on a book succeeds exactly when the key is present. It then yields the value of a member with that key. |
| Contributors.NameList | audibleLibrary.py:47 | The comprehension succeeds iff every element has a `name`. On success it has one entry per element, in order, each that element's `name`. |
| Contributors.JoinStrings | audibleLibrary.py:48 | The join succeeds iff every item is a str. The text is then the items in order with ';' between neighbours. |
| Contributors.AllOrNothing | audibleLibrary.py:36-51 | `GetContributors` models the whole function. If the value iterates and every element has a string `name`, the result is the names joined with ';' in input order. Otherwise the result is exactly "N/A". |
| Contributors.OneMalformedDiscardsAll | audibleLibrary.py:46-51 | One element without a string `name` anywhere in the list turns the whole result into "N/A". |
| Contributors.NamesRecoverable | audibleLibrary.py:47-48 | When there is at least one name and no name contains ';', splitting the result on ';' gives back every name in order. |
| Contributors.EmptyList | audibleLibrary.py:46-48 | The default empty list gives "" and not "N/A", and so do an empty dict and an empty str. |
| Contributors.JoinedExample | audibleLibrary.py:47-48 | `[{"name": "A"}, {"name": "B"}]` gives "A;B". |
| Contributors.SentinelExamples | audibleLibrary.py:46-51 | None, a list with an element lacking `name`, a list with a non-string name, and a bare non-empty dict each give "N/A". |
| AudibleLibrary.ProjectDefaults | audibleLibrary.py:87-93 | `Project` models lines 87-93 as an `ExportRecord`. A missing key gets its default. Authors and narrators become "". The title, release date and purchase date become their "Unknown ..." texts. The runtime becomes (0, "0:00"). |
| AudibleLibrary.ProjectPassesFields | audibleLibrary.py:87-93 | A present title or date reaches the record unchanged. Present contributor lists go through `get_contributors`, and a present runtime goes through `convert_time`. |
| AudibleLibrary.RowMatchesHeader | audibleLibrary.py:94-106 | `BookRow` (`ToRow` of `Project`) models the list built at line 94, and `HeaderRow` the `fields` of line 106. Every row has the header's 7 fields. The header holds the 7 column names, and each field of a row is the record field named by the header in that column. |
| AudibleLibrary.RowsSucceed | audibleLibrary.py:85-96 | `RowsBy` models the loop for any row builder, and `Rows` is `RowsBy` with `BookRow`. The rows exist iff every item is a dict, and then there is exactly one row per item. This holds whatever the row is built from, so it holds for `Rows`. |
| AudibleLibrary.RowsInOrder | audibleLibrary.py:85-96 | Row k is the row built from item k. For `Rows`, that row is `BookRow` of item k. |
| AudibleLibrary.RowsCrash | audibleLibrary.py:86-89 | A failure names the first item that is not a dict. Every earlier item is a dict. |
| AudibleLibrary.RowsStep | audibleLibrary.py:86-94 | One more item appends its row when it is a dict, and otherwise fails at its index. |
| AudibleLibrary.RowsCrashSticks | audibleLibrary.py:86-96 | Once a prefix of the items fails, the whole loop fails the same way and no rows are returned. |
| AudibleLibrary.GetLibrary | audibleLibrary.py:85-96 | The loop's result equals `Rows` of the listed items. A listing that is not a dict, or an `items` value that cannot be iterated, gives its crash. |
| AudibleLibrary.NoItemsNoRows | audibleLibrary.py:86 | `Books` models `library.get("items", [])` and its iteration. A listing without `items` is iterated as [] and gives no rows. |
| AudibleLibrary.RowWriter.WriteRow | audibleLibrary.py:111 | `writerow` appends exactly one record. |
| AudibleLibrary.RowWriter.WriteRows | audibleLibrary.py:112 | `writerows` appends the rows in order and changes nothing else. |
| AudibleLibrary.CsvRecords | audibleLibrary.py:106-112 | The file holds N + 1 records. The first is the header, and the rest are the rows unchanged. |
| AudibleLibrary.WriteLibrary | audibleLibrary.py:106-112 | A freshly opened file ends up holding exactly the header followed by the rows. |
| AudibleLibrary.Export | audibleLibrary.py:118-126 | The export succeeds iff the listing iterates and every item is a dict. Then the file holds N + 1 records: the header, then row k for item k. |

## Left out

- `authenticate.py` is not part of this model. It reads a username and a password interactively, exits with status 1 when either is empty after stripping, logs in through the `audible` package, writes the auth file and restricts it to mode 0o600.
- Logging (`setup_logging`, every `logging.*` call) is left out, because it does not affect the values produced.
- The `audible` client is left out: reading the auth file, the login, and the `1.0/library` request with its fixed parameters. The decoded listing is an input of `GetLibrary` and `Export`.
- The checks that exit the process are left out: a missing auth file, a failed login, a failed request, and `sys.exit`.
- The output file is a sequence of records whose fields are still `Json` values. The csv writer's conversion of non-string fields to text (None becomes "", True becomes "True", an int its decimal digits), the CSV quoting and escaping, the directory creation, the file encoding and the IOError exit of `write_library` are not modelled.
- Runtime values with a fraction (JSON floats) are not modelled, because the value type has no floats.
- The ValueError that `convert_time` also catches is not raised by `//` or `%` on any value the model has, so it has no separate branch.
- Duplicate keys in one JSON object: lookup takes the first member, while `json` keeps the last. Decoded payloads have distinct keys, so the two agree.
- Text.ZFill: its contract states only the length. The digits of the padded minutes are pinned down by Runtime.FormatHMShape.
