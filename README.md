# zeek-otx: a verified model of the OTXv2 → Zeek Intel feed

`scripts/zeek-otx.py` fetches the pulses a user subscribes to from the
AlienVault OTXv2 API and writes them as a Zeek Intel framework file. It does
three things, and this project models and proves properties of all three:

- **Type mapping** (module `IntelTypes`). The fixed `_MAP` table and
  `map_indicator_type` send ten OTXv2 indicator codes to five Zeek Intel
  types. Every other code is unsupported.
- **Record formatting** (module `Records`). For each pulse it builds:
  - the tab-free `meta.source` description;
  - the reference URL (the first reference, or a fallback);
  - for every supported indicator, one line of six tab-separated fields
    ending in `\t-\n`, with `scheme://` stripped from URL values.

  The file is the `_HEADER` line followed by the records of every pulse in
  stream order. This is stated as functions from a pulse sequence to lines
  and to text.
- **Retrieval** (module `Fetch`), covering `_get` and `iter_pulses`.
  - The HTTP service is a function from request to response.
  - `_get` dispatches on the status code: 200 gives the body, 403 and 400
    exit with code 1 and their messages, and anything else returns nothing.
  - `iter_pulses` follows the `next` links while they are truthy.
  - `IterTrace` is the whole exchange as a function. The method `IterPulses`
    runs the same loop and is proved equal to it.

The driver `main` is the class `Writer.IntelFiles`. Its two fields are the
contents of the staging file `outfile + '.tmp'` and of the output file.

- `Run` opens the staging file, writes the header, and writes the records
  pulse by pulse and indicator by indicator. This uses the nested loops of
  `WritePulses`, `WritePulse` and `WriteIndicator`, including the in-place
  update `fields[0] = …` for URL values.
- When the stream runs out, `Run` promotes the staging file to the output
  file.
- Its contract ties both files to the pure `FileContents` of the pulses
  retrieved.
- A 403 or 400, or any other non-200 status, leaves the output file
  untouched and the exit status 1. After a 403 or 400 `Run` also returns
  the message `_get` printed. These are the failures the model covers;
  an exception raised while a record is built is another way to exit 1
  with the output untouched (see "Left out").

Two facts about the code shape the model.

- Only the description is stripped of tabs (line 111). The indicator value,
  the reference URL and the notice flag get no tab replacement. Values of
  every type but URL are written unchanged; URL values only lose their
  scheme (lines 126-128, simplified as listed under "Left out").
  `RecordLineFields` therefore needs those fields to be tab-free before it
  proves that a line splits back into its six fields.
- A status other than 200, 403 or 400 makes `_get` return `None`. The caller
  then subscripts that value (line 65 or 71), so the program stops with an
  uncaught `TypeError` and exit status 1. This is `Stop.Crashed`. No
  protocol error is raised.

## Model

| member | source | states |
|---|---|---|
| IntelTypes.MapIndicatorType | scripts/zeek-otx.py:75-80 | `_MAP.get` on the table `IndicatorMap`: the lookup gives a type exactly for the codes that are keys of the table |
| IntelTypes.MapIndicatorTypeTable | scripts/zeek-otx.py:21-32 | each of the ten codes gives its listed type (IPv4/IPv6→ADDR, domain/hostname→DOMAIN, email→EMAIL, URL/URI→URL, three FileHash codes→FILE_HASH), each type comes from exactly those codes, and every other code gives `None` |
| IntelTypes.MapIsCaseSensitive | scripts/zeek-otx.py:80 | the dictionary lookup is exact: `ipv4`, `url`, `Domain` and `FileHash-md5` are unsupported |
| IntelTypes.NameShape | scripts/zeek-otx.py:22-31 | every Zeek type name (`Name`, the string values of the table) is in the `Intel::` namespace and holds no tab or newline, so it is a safe field |
| IntelTypes.NameInjective | scripts/zeek-otx.py:126 | two types have the same name only when they are the same type, so `fields[1] == "Intel::URL"` selects exactly the URL type |
| Text.ReplaceChar | scripts/zeek-otx.py:111 | `replace('\t', ' ')` keeps the length, puts `to` where `from` was and leaves every other character |
| Text.JoinSnoc | scripts/zeek-otx.py:129 | `Join` (`'\t'.join`): joining one more field adds exactly one separator and that field |
| Text.SplitJoin | scripts/zeek-otx.py:129 | splitting a tab-join of tab-free fields on tabs gives back exactly those fields |
| Text.JoinSplit | scripts/zeek-otx.py:129 | joining the pieces of a split restores the text, for every text |
| Text.IndexOf | scripts/zeek-otx.py:127 | the result is the first occurrence of the pattern, and it is `None` exactly when there is no occurrence |
| Text.RemoveAllShrinks | scripts/zeek-otx.py:128 | `RemoveAll`, that is `replace(pat, '')`, never lengthens the text and keeps only characters of the input |
| Text.RemoveAllFirst | scripts/zeek-otx.py:128 | `replace(pat, '')` keeps the text before the first occurrence of `pat`, deletes that occurrence and resumes the scan right after it |
| Text.RemoveAllAt | scripts/zeek-otx.py:127-128 | the same step with the first occurrence found by `find` (`IndexOf`) |
| Text.RemoveAllAbsent | scripts/zeek-otx.py:128 | deleting a pattern that does not occur leaves the text unchanged |
| Text.RemoveAllLeading | scripts/zeek-otx.py:128 | a leading occurrence is deleted and the scan resumes right after it |
| Records.Description | scripts/zeek-otx.py:105-111 | the description holds no tab and has the length of the formatted string `RawDescription`, `"AlienVault OTXv2 - " + name + " ID: " + id + " Author: " + author_name`; position by position, tabs became spaces and every other character is kept |
| Records.DescriptionVerbatim | scripts/zeek-otx.py:105-111 | when name, id and author hold no tab, the description is the formatted string exactly |
| Records.ReferenceUrl | scripts/zeek-otx.py:116-119 | the URL field is `references[0]` when there is a reference and `https://otx.alienvault.com` when the list is empty |
| Records.StripScheme | scripts/zeek-otx.py:127-128 | stripping never lengthens the value, adds no new character, and is the identity when the value has no `://` |
| Records.StripSchemeAt | scripts/zeek-otx.py:127-128 | the scheme is the text before the first `://`; the value becomes the text after that `://` with every further `scheme://` deleted |
| Records.StripSchemeRest | scripts/zeek-otx.py:127-128 | a value `scheme://rest` with a colon-free scheme becomes `rest` with every `scheme://` in it deleted |
| Records.StripSchemePrefix | scripts/zeek-otx.py:127-128 | a value `scheme://rest`, where the scheme has no colon and `rest` does not repeat `scheme://`, becomes exactly `rest` |
| Records.StripSchemeExample | scripts/zeek-otx.py:126-128 | `https://example.com/a` becomes `example.com/a` |
| Records.StripSchemeRepeated | scripts/zeek-otx.py:126-128 | a scheme repeated later in the value is deleted there too: `h://a?u=h://b` becomes `a?u=b` |
| Records.RecordValue | scripts/zeek-otx.py:120-128 | the value field is the indicator unchanged for every type but URL, and the scheme-stripped indicator for URL |
| Records.RecordLine | scripts/zeek-otx.py:120-129 | every record line ends with `\t-\n` |
| Records.RecordLineSpelledOut | scripts/zeek-otx.py:120-129 | a record line is value, type name, description, URL and notice flag, each followed by a tab, then `-\n` |
| Records.RecordLineFields | scripts/zeek-otx.py:120-129 | when the value, URL and notice flag are tab-free, the line splits on tabs into exactly its six fields `RecordFields`, in order |
| Records.HeaderIsJoin | scripts/zeek-otx.py:17 | `Header` is the tab-join of `#fields`, the five column names `indicator` to `meta.do_notice`, and `meta.if_in` with the newline |
| Records.HeaderColumnsSplit | scripts/zeek-otx.py:17 | the header splits on tabs into seven entries: `#fields` and one per field of `RecordFields` (the last entry carries the newline) |
| Records.LineForCases | scripts/zeek-otx.py:112-129 | `LineFor`: an indicator of unsupported type gives no line, and one of supported type gives exactly its record under the mapped type |
| Records.MappedMembers | scripts/zeek-otx.py:112-115 | the kept indicators `Mapped` are exactly the pulse's indicators with a supported type |
| Records.MappedAppend | scripts/zeek-otx.py:112-115 | skipping indicators commutes with concatenation, so the original order is kept |
| Records.IndicatorLinesAppend | scripts/zeek-otx.py:112-129 | the records of a concatenation of indicators are the records of each part, in order |
| Records.IndicatorLinesAreMapped | scripts/zeek-otx.py:112-129 | `PulseLines` (the `IndicatorLines` of all its indicators): a pulse yields one line per supported indicator, and the k-th line is the record of the k-th supported indicator under its mapped type |
| Records.AllLinesAppend | scripts/zeek-otx.py:103-129 | `AllLines`: the records of a concatenation of pulse streams are the records of each, in order |
| Records.OutputLines | scripts/zeek-otx.py:101-102 | the first line of the file is the header |
| Records.OutputLinesCount | scripts/zeek-otx.py:101-129 | the file has the header plus one record per supported indicator over all pulses (records, not text lines: see "Left out" on newlines) |
| Records.FileContents | scripts/zeek-otx.py:101-102 | the file text starts with the header |
| Records.FileContentsEmpty | scripts/zeek-otx.py:101-102 | with no pulses, the file is the header alone |
| Records.FileContentsSnoc | scripts/zeek-otx.py:103-129 | one more pulse extends the file by exactly that pulse's records |
| Records.IndicatorTextSnoc | scripts/zeek-otx.py:112-129 | one more indicator extends a pulse's text by exactly that indicator's record, or by nothing |
| Records.IndicatorLinesPair | scripts/zeek-otx.py:112-129 | two indicators give the lines of the first, then those of the second |
| Records.ExampleLineFor | scripts/zeek-otx.py:112-115 | an IPv4 indicator gives one ADDR record, and an indicator of an unknown type gives none |
| Records.ExampleRecord | scripts/zeek-otx.py:105-129 | an IPv4 indicator of a pulse without references becomes `1.2.3.4\tIntel::ADDR\tAlienVault OTXv2 - P1 ID: 42 Author: A\thttps://otx.alienvault.com\tT\t-\n` |
| Records.ExamplePulseLines | scripts/zeek-otx.py:112-129 | that pulse, with one more indicator of an unknown type, yields that single record |
| Records.EndToEndExample | scripts/zeek-otx.py:101-129 | the file for that one pulse is the header followed by that record |
| Fetch.MakeRequest | scripts/zeek-otx.py:40-45 | every request carries the key; the first goes to the subscribed endpoint with `limit` and `modified_since`, and a continuation goes to the `next` URL with no query |
| Fetch.Dispatch | scripts/zeek-otx.py:47-55 | 200 gives the body; 403 exits with 1 and "An invalid API key was specified."; 400 exits with 1 and "An invalid request was made."; every other status gives nothing; each in both directions |
| Fetch.ResultsAppend | scripts/zeek-otx.py:65-72 | the pulses of concatenated pages are the pulses of each page, in order |
| Fetch.FollowBoundIrrelevant | scripts/zeek-otx.py:69-73 | the continuation loop's result does not depend on how large a sufficient page bound is |
| Fetch.IterTraceBoundIrrelevant | scripts/zeek-otx.py:57-73 | the whole stream does not depend on how large a sufficient page bound is |
| Fetch.ConsChained | scripts/zeek-otx.py:69-73 | a 200 page whose `next` leads to a well-chained rest of the stream makes a well-chained stream |
| Fetch.FollowChained | scripts/zeek-otx.py:69-73 | `Follow`: from any `next` link the loop sends one request per page to the previous page's link. It stops at the first falsy `next` (`Truthy` fails: `None` or the empty string) with nothing requested, or after the first non-200 response |
| Fetch.IterTraceChained | scripts/zeek-otx.py:57-73 | `IterTrace`: the first request carries the query. Each later request is the previous page's truthy `next` with only the key. Each page answers a 200 to its own request. A finished stream ends on a falsy `next`; an exit follows a 403 or 400 with code 1 and its message; a crash follows any other status |
| Fetch.IterPulses | scripts/zeek-otx.py:57-73 | the generator, run to the end, yields the pulses of every page received in order, sends exactly the requests of `IterTrace` and stops for the same reason |
| Fetch.TwoPages | scripts/zeek-otx.py:57-73 | a first page with a link and a second with an empty `next` take exactly two requests and yield the first page's pulses, then the second's |
| Writer.IntelFiles.constructor | scripts/zeek-otx.py:101-131 | no staging file, and the output file as it was before the run |
| Writer.IntelFiles.OpenStaging | scripts/zeek-otx.py:101-102 | opening truncates the staging file and the header is its whole content |
| Writer.IntelFiles.Append | scripts/zeek-otx.py:129 | a write appends the text to the staging file |
| Writer.IntelFiles.Promote | scripts/zeek-otx.py:131 | the rename makes the output file the staging file's content and removes the staging file |
| Writer.IntelFiles.WriteIndicator | scripts/zeek-otx.py:113-129 | the staging file grows by the indicator's record, or not at all when the type is unsupported |
| Writer.IntelFiles.WritePulse | scripts/zeek-otx.py:104-129 | the staging file grows by exactly the pulse's records, in indicator order |
| Writer.IntelFiles.WritePulses | scripts/zeek-otx.py:101-129 | after the header, the staging file holds exactly the file text of the pulses |
| Writer.IntelFiles.Run | scripts/zeek-otx.py:99-131 | when the stream runs out, the exit status is 0, the output file is the file text of every pulse retrieved, and no staging file is left. Otherwise the exit status is 1, the output file is unchanged, and the staging file holds the header and the records of the pulses received before the failure. After a 403 or 400 it returns the message printed (lines 51 and 54), and no message otherwise |

## Left out

- HTTP (`requests.get`) and JSON decoding. The service is a total, deterministic function `Api` from request to response. A 200 body is assumed to decode into a page of pulses and a `next` value, where JSON null is `None`. Only the pulse fields the script reads are kept.
- Missing JSON keys (a `KeyError` on `results`, `next` or a pulse field) and non-string values are not modelled, because the model's page and pulse types always carry these fields.
- Argument and configuration parsing (lines 85-97). The key, the notice flag and the output path are plain inputs, and `if_in` is the constant `-`.
- The clock and date formatting of line 99. `mtime` is an opaque string parameter.
- UTF-8 encoding of the records (line 129) and the byte type of `_HEADER`. Both are modelled as strings of characters.
- File handles, file-system errors and the atomicity of `os.rename`. The two files are values in `Writer.IntelFiles`.
- The interleaving of the lazy generator with the writer. `Run` fetches every page first and then writes. The final contents of both files are the same, because each write depends only on the pulses yielded so far and a failing request yields no pulses.
- Fetch.IterPulses: requires `PagesEnd`, meaning the chain of `next` links ends within a ghost bound of pages. A service whose links never end, which makes the script loop forever, is outside the model. `IterTraceBoundIrrelevant` shows that the result does not depend on the bound chosen.
- Writer.IntelFiles.Run: requires `PagesEnd` for the same reason. After a crash on another status it returns no message, because the traceback Python prints is not modelled.
- Records.StripScheme simplifies `urlparse`. The model takes as scheme the text before the first `://` and deletes every non-overlapping occurrence of `scheme://`, left to right, as `str.replace` does. The real parser differs in several ways, among others:
  - `urlparse` takes as scheme the text before the first `:`, and only when it is made of letters, digits, `+`, `-` and `.` and starts with a letter; otherwise the scheme is empty and the replacement deletes every `://`. So `a:b://c` keeps its text in the script (scheme `a`, no `a://` in it) but becomes `c` in the model.
  - `geturl()` lower-cases the scheme before the replacement.
  - `geturl()` rebuilds the URL: it writes `//` back for schemes that use a host, so `http:/x` becomes `http:///x` and then `/x` in the script, while the model keeps `http:/x`.
  - `urlsplit` changes the text: Python 3.9.5 and later remove every tab, carriage return and newline, Python 3.12 also strips leading control characters and spaces, and `urlunsplit` has always dropped an empty `?` or `#`. So URL-typed values are not always written character for character.
- Records.StripScheme is total, but `urlparse` at line 127 can raise `ValueError`. It does so for a host with an unbalanced `[` or `]` (`http://[x`), for text before a `[` in the host (the defanged `http://example[.]com/x`), and for a non-ASCII host that normalises to one of `/?#@:`. In the script the exception ends `main` inside the `with` block: the exit status is 1, the staging file keeps the header and the records written so far, and the output file is not replaced. The model writes such a value's record like any other, so Writer.IntelFiles.Run does not capture this abort path.
- Records.OutputLinesCount: counts records, each one element of the line sequence. Only tabs of the description are replaced, so a newline in a pulse's name, id or author, or in an indicator value, a reference or the notice flag, makes one record span several text lines of the file.
- The value and the URL get no tab replacement in the code, and the model does not add one.
