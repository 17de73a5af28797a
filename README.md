# ChatGPT export to Markdown, modelled in Dafny

The exporter reads the `conversations.json` file of a ChatGPT data export.
It writes one Markdown file per conversation into an output directory.
Each file has three parts:

- a YAML front matter with the title, date, tags, participants, source and conversation id;
- a heading, and a `*Created:*` line when the record has a creation time;
- the user and assistant messages, each under a bold label, separated by horizontal rules.

The file is named after the conversation's title, once the title is made safe for a file system.

This project models that exporter, one module per concern:

- `Text`: the two Python string operations used throughout. `Strip` is `str.strip()`, with `isspace` written out as the Unicode whitespace ranges. `Join` is `sep.join(...)`.
- `Sequences`: the filter-and-transform shape of the message loop, together with the positions of the kept elements.
- `Filenames`: `sanitize_filename`, in three steps:
  - reserved characters become `_`;
  - whitespace runs collapse, then the result is stripped;
  - the name is cut to 100 characters, with `Untitled` for an empty result.
- `Yaml`: `yaml_escape` and its exact inverse `Unquote`.
- `Dates`: `iso_date`. The timestamp parser from the Python library is a parameter.
- `Export`, for one conversation:
  - how the fields are read;
  - which messages are kept and how they are rendered;
  - the front matter, the body and the file name.

  It also holds the run over all conversations. The run writes into a directory modelled as a map from file name to content, and counts the conversations.

Three things in `Export` are written imperatively, as loops that build their result step by step:

- the message loop (`ExtractMessages`);
- the body and file-name assembly (`BuildBody`, `BuildFileName`);
- the run itself (`ExportAll`, `WriteNext`).

Each method is proved equal to a functional definition (`Extracted`, `Body`, `NameFor`, `WriteAll` of `Outputs`). The lemmas state what those definitions guarantee.

## Model

| member | source | states |
|---|---|---|
| `Text.Strip` | export_to_markdown.py:18 | the stripped text neither starts nor ends with whitespace, and is empty exactly when the input is all whitespace |
| `Text.StripSplit` | export_to_markdown.py:18 | stripping removes only whitespace: the result is a contiguous slice of the input, with only whitespace before and after it |
| `Text.JoinAt` | export_to_markdown.py:115 | in a join, every element stands whole and in order, with one separator between neighbours |
| `Text.JoinAllSpace` | export_to_markdown.py:82 | with a whitespace separator, the join is all whitespace exactly when every element is |
| `Sequences.KeptIndicesSound` | export_to_markdown.py:64-93 | the positions of the kept nodes are in range and increasing, and each of them produced a block |
| `Sequences.KeptIndicesComplete` | export_to_markdown.py:64-93 | every node that produces a block is among the kept positions |
| `Sequences.FilterMapAt` | export_to_markdown.py:64-93 | the k-th collected block is the block of the k-th kept node, so no block is lost, invented or reordered |
| `Filenames.ReplaceReserved` | export_to_markdown.py:17 | the length is kept, every reserved character becomes `_`, and every other character stays in place |
| `Filenames.CollapseRuns` | export_to_markdown.py:18 | collapsing never lengthens the text |
| `Filenames.CollapseIsClean` | export_to_markdown.py:18 | after collapsing, no two whitespace characters are adjacent, the only whitespace is the plain space, and no reserved character is introduced; the result is empty only for empty input, and starts with whitespace exactly when the input does |
| `Filenames.CollapseKeepsNonSpace` | export_to_markdown.py:18 | collapsing keeps every non-whitespace character, in order |
| `Filenames.CollapseAppend` | export_to_markdown.py:18 | collapsing works piece by piece: the collapse of a concatenation is the collapse of the first piece followed by that of the second, which is told whether the first ended inside a whitespace run |
| `Filenames.CollapseWord` | export_to_markdown.py:18 | a stretch without whitespace comes through unchanged |
| `Filenames.CollapseRun` | export_to_markdown.py:18 | a whitespace run becomes exactly one space, or nothing when it continues a run already open |
| `Filenames.CollapseBetweenWords` | export_to_markdown.py:18 | a whitespace run between two non-whitespace characters leaves exactly one space between what the two sides collapse to |
| `Filenames.Truncate` | export_to_markdown.py:19 | the cut is a prefix of the text: the whole text when it has at most 100 characters, otherwise exactly its first 100 |
| `Filenames.SanitizeFilename` | export_to_markdown.py:16-19 | the file name is never empty and never longer than 100 characters |
| `Filenames.SanitizeIsSafe` | export_to_markdown.py:16-19 | for every title, the name has no reserved character, does not start with whitespace, has no two adjacent whitespace characters, and its only whitespace is the plain space |
| `Filenames.SanitizeKeepsText` | export_to_markdown.py:16-19 | for a non-blank title of at most 100 characters, only whitespace and reserved characters change: the non-whitespace text is the title's, with `_` for each reserved character |
| `Filenames.SanitizeKeepsCleanName` | export_to_markdown.py:16-19 | a title that is already clean once reserved characters are replaced is saved under exactly that text; a clean title is its own name |
| `Filenames.SanitizeIdempotent` | export_to_markdown.py:16-19 | sanitising a sanitised name again changes nothing, provided the name does not end in whitespace |
| `Filenames.ShortIsStripped` | export_to_markdown.py:18-19 | a title of at most 100 characters gets a name with no whitespace at either end |
| `Filenames.CleanLongName` | export_to_markdown.py:19 | a clean title longer than 100 characters is saved under its first 100 characters |
| `Filenames.CutAtSpace` | export_to_markdown.py:18-19 | when the 100-character cut of a clean title ends in a space, the name ends in that space, and sanitising it again would change it |
| `Filenames.CutAtSpaceExample` | export_to_markdown.py:18-19 | 99 letters, a space and a letter give the 99 letters plus the space, and a second pass drops that space |
| `Filenames.SanitizeWord` | export_to_markdown.py:16-19 | a single word of at most 100 characters, none of them reserved, is its own name |
| `Filenames.SanitizeTwoWords` | export_to_markdown.py:16-19 | two such words with any whitespace run between them, short enough together, are saved as the two words with one space between |
| `Filenames.SanitizeBlank` | export_to_markdown.py:19 | an empty or all-whitespace title is saved as `Untitled` |
| `Filenames.SanitizeExample` | export_to_markdown.py:16-19 | `A/B: Test?` is saved as `A_B_ Test_` |
| `Yaml.EscapeQuotes` | export_to_markdown.py:32 | each double quote gains one backslash, the result never starts with a quote, and text without quotes is unchanged |
| `Yaml.YamlEscape` | export_to_markdown.py:22-33 | an absent value gives the empty text; a text is returned unchanged exactly when it has no indicator character, does not end in whitespace and does not start with one of ` - ? : @`; otherwise it is wrapped in double quotes and grows by two plus one per inner quote |
| `Yaml.UnescapeEscape` | export_to_markdown.py:32 | undoing the quote escaping restores the text |
| `Yaml.YamlRoundTrip` | export_to_markdown.py:22-33 | for every text, the escaped value reads back as the text itself |
| `Yaml.LettersWrittenPlain` | export_to_markdown.py:28-33 | a text of ASCII letters only is written as it is |
| `Yaml.LineBreakWrittenPlain` | export_to_markdown.py:28-33 | a line break does not force quoting: two lines that need none are written unquoted, line break included |
| `Yaml.TrailingBackslashQuoted` | export_to_markdown.py:32 | backslashes are not escaped: a quoted text without quotes that ends in a backslash is written ending in backslash, quote |
| `Yaml.TrailingBackslashExample` | export_to_markdown.py:32 | the title `C:` plus a backslash is written ending in backslash, quote |
| `Dates.ReplaceZulu` | export_to_markdown.py:42 | no `Z` is left, and a text without one is unchanged |
| `Dates.ReplaceZuluAppend` | export_to_markdown.py:42 | the replacement works piece by piece |
| `Dates.ZuluSuffix` | export_to_markdown.py:42 | a trailing `Z` after a text without one becomes `+00:00` |
| `Dates.IsoDate` | export_to_markdown.py:36-45 | an empty timestamp gives the empty text without consulting the parser; otherwise the parser is given the timestamp with each `Z` written as `+00:00`, and its date is the result, or the empty text when it fails; with a parser that returns dates, the result is empty or of the form `YYYY-MM-DD` |
| `Export.Title` | export_to_markdown.py:53 | the record's title when it is present and not empty, `Untitled` otherwise; so never empty |
| `Export.CreatedRaw` | export_to_markdown.py:54 | the raw creation time is empty exactly when it is absent or empty, and is otherwise the record's value |
| `Export.ConversationId` | export_to_markdown.py:56 | the id is empty exactly when both `id` and `conversation_id` are absent or empty; otherwise it is one of them, and `id` whenever that is present and not empty |
| `Export.ResolveText` | export_to_markdown.py:77-85 | a message's text is always stripped at both ends |
| `Export.ResolveTextSource` | export_to_markdown.py:77-85 | the joined parts are used when some part has non-whitespace, otherwise the `text` field is; the text is empty exactly when the parts and the `text` field are all blank |
| `Export.Block` | export_to_markdown.py:72-93 | a node yields a block exactly when it holds a `user` or `assistant` message with non-empty text; the block is the role's bold label, that stripped text and a newline |
| `Export.PartsExample` | export_to_markdown.py:82 | the parts `Hello` and `World` read as `Hello`, a blank line, then `World` |
| `Export.ExtractMessages` | export_to_markdown.py:64-93 | the loop collects exactly the blocks of the kept nodes, in node order |
| `Export.Heading` | export_to_markdown.py:112-114 | the heading is `# `, the title and a blank line, followed by the `*Created:*` line and a blank line exactly when the raw creation time is not empty |
| `Export.Body` | export_to_markdown.py:112-115 | the body starts with the heading; with no blocks the placeholder follows it, and a single block follows it alone |
| `Export.BuildBody` | export_to_markdown.py:112-115 | the appended body is the heading, the optional `*Created:*` line, then the blocks joined by rules or the placeholder |
| `Export.BodyBlockAt` | export_to_markdown.py:112-115 | every message block appears whole in the body, in order, after the heading, with a rule before it unless it comes first |
| `Export.FieldValueRoundTrip` | export_to_markdown.py:99-107 | a date or conversation id reads back from its front-matter value; an empty one is written `""` |
| `Export.DateIsQuoted` | export_to_markdown.py:99 | a `YYYY-MM-DD` date is always written in double quotes, and nothing else changes |
| `Export.FrontMatter` | export_to_markdown.py:96-110 | nine lines: `---`, then `title: `, `date: ` and, on the seventh, `conversation_id: ` lines whose values read back as the title, date and id, then `---` and an empty line |
| `Export.FrontMatterText` | export_to_markdown.py:96-110 | the front matter as text: its nine lines joined by eight newlines; the ninth line is empty, so the text ends in `---` and a newline |
| `Export.Document` | export_to_markdown.py:117 | the document is that front-matter text, with the body right after it |
| `Export.NameForIsSafe` | export_to_markdown.py:120-123 | from a safe base name, the file name ends in `.md`, has no reserved character, is at most 114 characters long, and is the base name plus `.md` unless the date prefix is requested and a date is known |
| `Export.FileNameIsSafe` | export_to_markdown.py:120-123 | the same properties hold of every conversation's file name |
| `Export.BuildFileName` | export_to_markdown.py:120-123 | the name built in place is the sanitised title, with the date prefix only when requested and a date is known, followed by `.md` |
| `Export.DefaultFileName` | export_to_markdown.py:120-123 | with the default configuration, the file name is the sanitised title and `.md` |
| `Export.DefaultNamesCollide` | export_to_markdown.py:120-124 | with the default configuration, two conversations get the same file name exactly when their titles sanitise alike |
| `Export.OneWordFileName` | export_to_markdown.py:120-123 | by default, a one-word title of at most 100 characters, none of them reserved, is saved under that word and `.md` |
| `Export.ZuluStampDate` | export_to_markdown.py:36-45 | a creation time ending in `Z`, and holding no other `Z`, reaches the parser with `+00:00` in its place, and the parser's date is written on the date line in double quotes |
| `Export.OnePartBlock` | export_to_markdown.py:77-93 | a kept message of one stripped, non-empty part is rendered as that part under its role's label |
| `Export.QuestionAnswerBlocks` | export_to_markdown.py:64-93 | a user node and an assistant node become a user block and an assistant block, in that order |
| `Export.TwoBlockBody` | export_to_markdown.py:112-115 | with a creation time and two blocks, the body is the heading, the `*Created:*` line, and the two blocks around one rule |
| `Export.ExampleBody` | export_to_markdown.py:52-115 | for the conversation titled `Test`, created `2024-01-01T00:00:00Z`, where the user says `Hi` and the assistant answers `Hello`, the body is the heading, the `*Created:*` line, the user block, a rule and the assistant block |
| `Export.ExampleDocument` | export_to_markdown.py:52-117 | the same conversation, without an id and with a parser that reads its timestamp as 2024-01-01, gives the whole document: the plain title `Test`, the date `"2024-01-01"`, the id `""`, then the body |
| `Export.ExampleFileName` | export_to_markdown.py:120-123 | the same conversation is saved as `Test.md` |
| `Export.ExportConversation` | export_to_markdown.py:52-123 | one conversation gives its file name and its Markdown text (front matter followed by body) |
| `Export.WriteNext` | export_to_markdown.py:123-125 | one pass of the loop writes the next conversation's file over the files written so far |
| `Export.ExportAll` | export_to_markdown.py:51-125 | the counter equals the number of conversations, and the directory is the result of all writes, in order |
| `Export.WriteAllFiles` | export_to_markdown.py:123-124 | after a sequence of writes, a file exists exactly when it existed before or some write named it |
| `Export.LastWriteWins` | export_to_markdown.py:123-124 | when several writes name the same file, the file holds the content of the last one |
| `Export.WriteAllUntouched` | export_to_markdown.py:123-124 | a file that no write names keeps its earlier content |
| `Export.OutputsAt` | export_to_markdown.py:52-124 | the run makes one write per conversation, in order: the j-th write is conversation j's file name and document |
| `Export.RunFiles` | export_to_markdown.py:120-124 | after the run, a file exists exactly when it existed before or some conversation's file name is its name |
| `Export.LastConversationWins` | export_to_markdown.py:117-124 | when no later conversation gets the same file name, the file holds this conversation's document |

## Left out

- Reading `conversations.json` (lines 48-49), creating the output directory (line 13), and the final message with the count (line 127) are I/O. The input is a sequence of `Conversation` values, the directory a map from file name to content, and the count a result of `ExportAll`.
- JSON's dynamic typing is left out. The model does not cover:
  - the `isinstance` checks on nodes and messages, where a node that is not an object is modelled as a node without a message;
  - `str(p)` applied to parts that are not strings, since parts are modelled as text;
  - a title, id, role or `text` field that is not text.
- A numeric `create_time` is left out, along with what `iso_date` and the `*Created:*` line do with it. Only textual creation times are modelled.
- `Dates.IsoDate`: `datetime.fromisoformat` followed by `.date().isoformat()` belongs to the Python library. It is a parameter that returns `None` where the library raises. Its promise to return `YYYY-MM-DD` is an assumption (`IsDateParser`) of the lemmas that need it.
- The order of `mapping.values()` is Python's dictionary order. The nodes are given as a sequence in that order.
- The branch of `yaml_escape` for `None` is modelled (line 24), but the exporter never reaches it: every value it passes is a text.
- `Yaml.YamlRoundTrip`: the value is read back with `Unquote`, the exact inverse of the escaping as written, not with a YAML parser. A YAML parser reads some values differently from the text that was written:
  - it decodes backslash sequences in a double-quoted value, and `yaml_escape` does not escape backslashes, so a title like `C:\new` reads back differently;
  - a quoted value that ends in a backslash ends in backslash, quote, which a YAML parser takes as an escaped quote, so the string is never closed (`TrailingBackslashQuoted`, and `TrailingBackslashExample` for the title `C:` plus a backslash);
  - a line break does not force quoting, so a title with one, and with nothing else that forces quoting, is written unquoted across two front-matter lines (`LineBreakWrittenPlain`);
  - only the plain space forces quoting at the start, so a title starting with a tab is written unquoted and a YAML parser drops the tab;
  - plain values get YAML types: a title such as `true`, `null`, `~` or `123`, or an id of digits only, is written unquoted and reads back as a boolean, null or number rather than as text.
- Python's `isspace` is written out as ranges of code points, and `\s` in `re` is taken to mean the same set.
- Filename collisions are not prevented by the source: a later conversation overwrites an earlier file. `LastWriteWins` states this.
- `Export.ExportAll`: every write is assumed to succeed. The directory is a map whose update cannot fail, and whose keys are compared exactly, character by character. `write_text` (line 124) can raise, and the exception ends the run before line 125 counts the file and before the summary at line 127. The counter and directory clauses therefore hold only for runs in which every write succeeds. Writes that raise include:
  - a name holding a NUL character, which `sanitize_filename` lets through;
  - a name longer than the file system's limit in bytes: 100 characters of four UTF-8 bytes each, plus `.md`, exceed the 255-byte limit common on Linux;
  - a directory the process may not write to.
- `Export.WriteNext`: the same assumption holds for a single write.
- Names are compared exactly, so on a case-insensitive file system `Test.md` and `test.md` are one file even though `DefaultNamesCollide` counts them as two names. The model does not capture that overwrite.
- The source needs Python 3.12 or later: the f-string on line 99 has a backslash (`'\"\"'`) inside its replacement field, which earlier versions reject. The model follows the 3.12 reading, in which an empty date is written `""` (`FieldValueRoundTrip`).
- The date-prefix flag `ADD_DATE_PREFIX_TO_FILENAME` is `False` in the source (`AddDatePrefixToFilename`). The run and the naming lemmas are stated for both values of the flag; `DefaultFileName`, `DefaultNamesCollide`, `OneWordFileName` and `ExampleFileName` state what the default value gives.
