# api-doc-parser interface generator in Dafny

This project models the core of `src/index.js` in api-doc-parser. That core is the generator
that turns the tables of a wiki page that documents an HTTP API into TypeScript `interface`
declarations.

Each documentation block has a heading of the form `<METHOD> <url> - <title>` and a list of
tables. The generator handles each table as follows:

- Tables with fewer than three rows are skipped.
- Error-code tables are skipped. An error-code table has more than one header cell in its first row.
- A table whose data rows all have a blank parameter cell adds nothing.
- Every other table becomes one interface:
  - Row 0 is the role label. It picks the name suffix.
  - Row 1 holds the column headers.
  - Every later row with a parameter name becomes one field.

The field's TypeScript type comes from a fixed lookup table of documentation type tokens. A
leading `#` on a token makes the type nullable. The blocks are joined with a blank line, in
document order.

The modules follow the source's parts:

| module | file | models |
|---|---|---|
| `Wrappers` | `wrappers.dfy` | `Option` |
| `JsString` | `js_string.dfy` | the JavaScript string operations used (`trim`, `\s`, `toLowerCase`, `split`, `join`, a global `replace`), over ASCII |
| `TypeMapper` | `type_mapper.dfy` | `apiTypeMappings` and `getTypeName` |
| `HeadingParser` | `heading_parser.dfy` | the heading pattern of `parseApiInfo`, `capitalizeFirstLetter`, `getApiName` |
| `Tables` | `tables.dfy` | `findIndexByHeaderText`, `interfaceTypeMappings`, `bracketRegex`, and the per-row extraction of `generateInterfaceCode` |
| `Generator` | `generator.dfy` | the table classifier, the text renderer and the loops of `generateInterfaceCode` |

The pure parts are functions. `findIndexByHeaderText` and the loops of `generateInterfaceCode`
work step by step, so they are methods with loops:

- `Tables.FindIndexByHeaderText`
- `Generator.RenderRows`, `Generator.RenderTables` and `Generator.GenerateInterfaceCode`

Each method is proved equal to the function that specifies it. The properties are then proved
about those functions.

The heading regular expression is `^(GET|POST|PUT|DELETE|PATCH)\s+(.*?)\s+-\s+(.*)$`. It is
modelled as a search that tries the repetition counts in the order a backtracking engine
tries them:

- the first `\s+` longest first;
- the lazy URL group shortest first;
- the two `\s+` around the dash longest first.

`MatchHeading` is proved to return the first fitting choice in that order, and nothing when
no choice fits. For a plain heading `<METHOD> <url> - <title>`, whose URL has no whitespace
and whose title is one line not starting with whitespace, the URL is the whole `<url>` and
later dashes stay in the title (`HeadingParser.HeadingMatch`). Other headings need not split
at their first separator. The URL reaches past a separator whose title would span two lines:
`GET /a - b -` with a line break before `c` gives the URL `/a - b`. The leading whitespace
gives back a space when only that lets a separator fit: `GET  - x` gives the empty URL.

`toPascalCase` comes from the `js-convert-case` package, so the model does not define it. It
is a parameter `pascal`. Lemmas that need its value on the three role names require
`RolesPascal(pascal)`: `payload`→`Payload`, `response`→`Response`,
`pathParameter`→`PathParameter`.

The model follows the code as written, including these behaviours:

- **No field is ever optional.** The optionality test compares the interface suffix with
  `Request` (`src/index.js:288-289`). The suffix is the PascalCase form of `payload`,
  `response` or `pathParameter`, so it is never `Request`. Every field is therefore rendered
  without `?`, whatever its Required cell says. The code evidently meant request tables,
  whose label maps to `payload`: there a Required text other than `Y` would give `?`.
  - `Tables.RowField` keeps the comparison as written.
  - `Tables.FieldsNeverOptional`, `Generator.InterfaceNameAndFields` and
    `Generator.InterfaceLines` prove the consequence.
  - `Generator.UsersRowField` shows it on a row whose Required text is `N`.
- **A missing column is read from the last cell.** A missing header gives column -1, and
  cheerio's `.eq(-1)` selects the last cell of the row. The column is not treated as absent
  (`Tables.MissingColumnReadsLastCell`).
- **The interface name uses the URL segment as written.** The heading
  `POST /users - Create User` gives the name `Post` + toPascalCase(`users`) + `Payload`. That
  is `PostUsersPayload` when toPascalCase only capitalises. The URL segment is not made singular.
- **A trailing `/` gives the empty name.** `getApiName` takes the last segment after
  splitting, even when it is empty. It does not take the last non-empty segment
  (`HeadingParser.ApiNameOfLastSegment` with `last` empty).

## Model

| member | source | states |
|---|---|---|
| JsString.TrimSpec | src/index.js:121 | `trim` keeps no whitespace at either end; it gives the empty string exactly when the text is all whitespace |
| JsString.TrimStartSpec | src/index.js:121 | leading trim drops only whitespace, and what it keeps is a suffix of the text |
| JsString.TrimEndSpec | src/index.js:121 | trailing trim drops only whitespace, and what it keeps is a prefix of the text |
| JsString.TrimUnchanged | src/index.js:121 | text with no whitespace at either end is left unchanged by `trim` |
| JsString.ToLower | src/index.js:98 | lower-casing keeps the length |
| JsString.ToLowerSpec | src/index.js:98 | lower-casing maps each character to its lower-case form, in place |
| JsString.LowerOf | src/index.js:98 | a text that lower-cases another one character by character is its lower-case form |
| JsString.ToLowerIdempotent | src/index.js:98 | lower-casing twice is the same as lower-casing once |
| JsString.Split | src/index.js:85 | `split('/')` gives at least one part and no part holds `/`; joining the parts with `/` gives back the URL |
| JsString.SplitAround | src/index.js:85 | splitting at a known separator splits the two sides independently |
| JsString.SplitWithout | src/index.js:85 | a URL without `/` splits into itself alone |
| JsString.JoinAppend | src/index.js:307 | joining two non-empty runs of blocks puts exactly one separator between them |
| JsString.DeleteAll | src/index.js:283 | a global `replace` of a literal pattern by the empty string never lengthens the text |
| TypeMapper.GetTypeName | src/index.js:96-113 | the result is a nullable union if and only if the token starts with `#`; without the null part it is always a value of the type table or `any` |
| TypeMapper.CaseInsensitive | src/index.js:98 | a token and its lower-case form give the same type |
| TypeMapper.NullableMarkerAddsNull | src/index.js:101-110 | `#` followed by a token gives that token's type, unioned with null |
| TypeMapper.UnmappedIsAny | src/index.js:106 | a token whose lower-case form is not a key, and that has no `#`, gives `any` |
| TypeMapper.MappedToken | src/index.js:57-69 | every key of the type table, in any letter case, is mapped to its own entry |
| TypeMapper.NullableDateExample | src/index.js:101-110 | `#Date` gives `APIDate` unioned with null |
| TypeMapper.MixedCaseExamples | src/index.js:96-113 | `DATE` gives `APIDate` like `date`, and `Array<Enum>` gives `APICode<string>[]` like `array<enum>` |
| TypeMapper.EmptyTokenExample | src/index.js:106 | the empty token gives `any` |
| TypeMapper.DoubleMarkerExample | src/index.js:101-106 | only one `#` is stripped, so `##date` gives `any` unioned with null |
| HeadingParser.Keyword | src/index.js:134 | the method alternative the heading starts with, or none when it starts with none of the five |
| HeadingParser.KeywordUnique | src/index.js:134 | no method keyword is a prefix of another, so at most one can start a heading |
| HeadingParser.FindPad | src/index.js:134 | the longest whitespace run after the dash that lets the title match, or none |
| HeadingParser.FindGap | src/index.js:134 | the longest whitespace run before the dash that lets the rest match, or none |
| HeadingParser.FindUrl | src/index.js:134 | the shortest one-line URL after which the dash separator fits, or none when no URL end fits |
| HeadingParser.FindLead | src/index.js:134 | the longest leading whitespace after which some URL fits, with that URL; none when no leading whitespace fits |
| HeadingParser.MatchHeading | src/index.js:134-135 | the result matches the pattern and no other match comes before it in the engine's order; none only when no choice of counts matches |
| HeadingParser.FirstMatchIs | src/index.js:134-135 | a match that no other match precedes is the one returned: the first match is unique |
| HeadingParser.CapitalizeFirstLetter | src/index.js:80-82 | the first character is upper-cased and the rest is kept; the empty string stays empty |
| HeadingParser.MethodNames | src/index.js:148 | each method keyword becomes its capitalised name (`GET`→`Get`, …) |
| HeadingParser.KeywordMethodName | src/index.js:148 | every keyword of the pattern is spelled as one of the five method names |
| HeadingParser.ApiNameSegment | src/index.js:84-93 | the segment the API is named after never holds `/` |
| HeadingParser.ApiNameOfLastSegment | src/index.js:85-92 | a URL ending in a plain segment is named after that segment |
| HeadingParser.ApiNameOfPlaceholder | src/index.js:88-89 | a URL ending in a `{...}` placeholder is named after the segment before it, with or without segments in front (`users/{id}` gives `users`, `/{id}` gives the empty name) |
| HeadingParser.ApiNameWithoutSlash | src/index.js:84-93 | a URL with no `/` is its own segment, unless it is a placeholder |
| HeadingParser.ParseApiInfoSpec | src/index.js:133-159 | the method is empty exactly when the pattern does not match; a mismatch keeps the whole text as title with empty method, URL and name; a match gives one of the five method names, and the name is toPascalCase of the URL's segment |
| HeadingParser.ParsedGroups | src/index.js:147-151 | on a match, the URL and title are the groups of the engine's first match |
| HeadingParser.NoKeywordHeading | src/index.js:134-146 | a heading whose first character starts no method keyword does not match and is kept whole as the title |
| HeadingParser.PlainHeadingMatches | src/index.js:134 | a heading `<keyword> <url> - <title>` with a whitespace-free URL and a one-line title fits the pattern with one space at each separator |
| HeadingParser.PlainHeadingFirst | src/index.js:134 | no other fitting choice of such a heading comes before the one with single spaces in the engine's order |
| HeadingParser.HeadingMatch | src/index.js:134-135 | a heading `<keyword> <url> - <title>` with a whitespace-free URL and a one-line title is matched with one space at each separator, even when the title holds ` - ` |
| HeadingParser.HeadingInfo | src/index.js:133-159 | such a heading gives its keyword's method name, its URL, its title and the name of its URL's segment |
| HeadingParser.BogusHeadingExample | src/index.js:137-146 | `bogus text` does not match and is kept whole as the title |
| HeadingParser.PlaceholderHeadingExample | src/index.js:133-159 | `GET /foo/{id} - Get Foo` gives `Get`, `/foo/{id}`, `Get Foo` and the name of `foo` |
| HeadingParser.ShortestUrlExample | src/index.js:134 | `POST /a - b - c` gives the URL `/a` and the title `b - c`, because the URL group is lazy |
| HeadingParser.UsersHeadingExample | src/index.js:133-159 | `POST /users - Create User` gives `Post`, `/users`, `Create User` and the name of `users` |
| Tables.HeaderIndex | src/index.js:116-130 | the position of the first cell whose trimmed `strong` text equals the header; -1 exactly when no cell does |
| Tables.FindIndexByHeaderText | src/index.js:116-130 | the loop with its early exit returns the first matching position, or -1 |
| Tables.CellAt | src/index.js:272-276 | `.eq(i)` selects a cell exactly when -length ≤ i < length, counting negative positions from the end |
| Tables.MissingColumnReadsLastCell | src/index.js:273-276 | a column whose header is missing reads the last cell of each data row |
| Tables.EmptyRowReadsNothing | src/index.js:272-276 | a row without cells reads the empty text in every column |
| Tables.SuffixIsRoleName | src/index.js:242-254 | the suffix is `Payload`, `Response` or `PathParameter`; it is `Response` and `PathParameter` exactly for the labels `responsedata` and `pathparameter`, and never `Request` |
| Tables.RequestLabelExample | src/index.js:242-252 | the label `Request` gives the suffix `Payload` |
| Tables.DeleteBracketsAfterLetters | src/index.js:282-284 | removing every `[]` from letters followed by `[]` leaves the letters |
| Tables.StripBrackets | src/index.js:282-284 | a name of letters followed by `[]` loses the `[]` and keeps at least one letter; every other name is kept |
| Tables.BracketExamples | src/index.js:54 | `items[]` becomes `items`; `a_b[]`, `x[][]` and `ids` are kept |
| Tables.ParameterTextEmpty | src/index.js:275-280 | the trimmed parameter text is empty exactly when the parameter cell is missing or all whitespace |
| Tables.RowField | src/index.js:271-292 | a row gives no field exactly when its parameter cell is blank; a field has a non-empty name and a type from the type table; it is optional only when the suffix is `Request` |
| Tables.RowFieldContents | src/index.js:271-289 | a field is read from its own row: its name is the trimmed parameter text without a trailing `[]` on a letters-only name, its description is the trimmed description text, its type is `getTypeName` of the trimmed type text, an empty type cell counting as `any`, and it is optional exactly when the suffix is `Request` and the Required text, `N` when empty, is not `Y` |
| Tables.Fields | src/index.js:271-293 | the data rows give at most one field each |
| Tables.FieldsAppend | src/index.js:271-293 | the fields of consecutive runs of rows come one after the other, in row order |
| Tables.FieldsEmpty | src/index.js:278-295 | a run of rows gives no field exactly when every row has a blank parameter cell |
| Tables.FieldsNeverOptional | src/index.js:288-289 | with any suffix other than `Request`, no field is optional |
| Generator.ClassifyTable | src/index.js:229-254 | a table is skipped as too short exactly when it has fewer than 3 rows, and as an error-code table exactly when its label row has more than one header cell; an interface has between 1 and (rows − 2) fields |
| Generator.TableContributes | src/index.js:229-302 | a table adds a block exactly when it has at least 3 rows, at most one label header cell, and a data row with a non-blank parameter |
| Generator.InterfaceNameAndFields | src/index.js:250-289 | an interface is named method + API name + one of the three role suffixes, and none of its fields is optional |
| Generator.InterfaceLines | src/index.js:288-292 | every line of an emitted interface is the doc comment with the description, then name, `: `, type and `;`, so no line carries `?` |
| Generator.RenderFields | src/index.js:271-293 | one rendered line per field |
| Generator.RenderFieldsSpec | src/index.js:271-292 | line k of the rendered fields is the rendering of field k |
| Generator.RenderFieldsAppend | src/index.js:271-293 | rendering keeps the field order: the lines of consecutive fields come one after the other |
| Generator.TablesBlocks | src/index.js:226-304 | a documentation block's tables give at most one block each |
| Generator.TablesBlocksAppend | src/index.js:226-304 | the blocks of consecutive tables come one after the other |
| Generator.DocsBlocksAppend | src/index.js:212-305 | the blocks of consecutive documentation blocks come one after the other, in document order |
| Generator.InterfaceCodeAppend | src/index.js:307 | the output for two runs of documentation blocks is the first output, a blank line, then the second; a run that yields nothing adds nothing |
| Generator.RenderRows | src/index.js:271-293 | the loop over the data rows gives the rendered lines of exactly the fields the rows define, in order |
| Generator.FindColumns | src/index.js:258-267 | the four header lookups give the columns of the header row |
| Generator.RenderTable | src/index.js:226-304 | the per-table callback gives exactly the block the table's classification defines, or none |
| Generator.RenderTables | src/index.js:226-304 | the loop over one block's tables gives the blocks of its tables, in order |
| Generator.GenerateInterfaceCode | src/index.js:207-308 | the loop over documentation blocks gives all their blocks, in order, joined with a blank line |
| Generator.UsersTableColumns | src/index.js:258-267 | the example header row puts Parameter, Parameter Description, Type and Required in columns 0 to 3 |
| Generator.UsersDocInfo | src/index.js:214-216 | the heading `POST /users - Create User` gives `Post`, `/users`, `Create User` and `Users` when toPascalCase maps `users` to `Users` |
| Generator.UsersRowField | src/index.js:271-292 | the data row `name` / `user name` / `string` / `N` gives a non-optional `name: string` field |
| Generator.UsersTableFields | src/index.js:229-293 | the example request table becomes `PostUsersPayload` with that one field |
| Generator.UsersTableBlock | src/index.js:295-301 | the example table's block is the region-fenced interface with its one field line |
| Generator.UsersPageExample | src/index.js:207-308 | a page holding `POST /users - Create User` and the example table gives exactly that one block |

## Left out

- I/O is not modelled:
  - the readline prompts (`getPageIdFromUser`, `getFilenameFromUser`);
  - the page fetch and its file cache (`getPageContent`, HTTP GET with Basic authorization);
  - `saveInterfaceCode`, `run` and the directory paths;
  - the environment settings;
  - console logging.
- HTML parsing and the cheerio selectors are not modelled. A page is given as documentation
  blocks, and a table as rows of extracted cell texts:
  - each cell's `strong` text and `p` text;
  - each row's count of `.confluenceTh` cells and its label text.
- `toPascalCase` is a parameter, specified only on the three role names.
- Whitespace, `trim`, `.` and letter case cover ASCII only. Unicode spaces, the separators
  U+2028 and U+2029, and non-ASCII case mapping are not modelled.
- HeadingParser.ApiNameSegment: a single-segment URL that starts with `{` gives the empty
  segment here. The source passes `undefined` to `toPascalCase` in that case.
- TypeMapper.GetTypeName: inherited object properties are not modelled. A token such as
  `constructor` finds a property of `Object.prototype` in the source. Here it gives `any`.
- Tables.RoleSuffix: the same holds for the role table. Labels that name inherited
  properties give `Payload` here.
- `parseApiInfo`, `capitalizeFirstLetter` and `getApiName` default their arguments to `''`. Every caller
  passes a string, so there are no defaults here.
- The commented-out error-code interface name is not modelled.
