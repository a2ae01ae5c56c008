/**
 * The table classifier and row extractor: what the generator reads out of one
 * documentation table. The HTML tree is replaced by rows of cells whose texts are
 * already extracted: for each cell the text of its `strong` elements (read from the
 * header row) and of its `p` elements (read from the data rows); for each row the number
 * of `.confluenceTh` cells and the text of its `.confluenceTh > p > strong` label.
 */
module Tables {
  import opened Wrappers
  import opened JsString
  import opened TypeMapper

  datatype Cell = Cell(strongText: string, paraText: string)

  datatype Row = Row(thCount: nat, labelText: string, cells: seq<Cell>)

  /** The rows of one table: the role label, the header row, then the data rows. */
  type Table = seq<Row>

  const ParameterHeader := "Parameter"
  const DescriptionHeader := "Parameter Description"
  const TypeHeader := "Type"
  const RequiredHeader := "Required"

  /**
   * The position of the first cell whose trimmed `strong` text is exactly `headerText`,
   * or -1 when there is none.
   */
  function HeaderIndex(cells: seq<Cell>, headerText: string): (i: int)
    ensures -1 <= i < |cells|
    ensures i == -1 <==> forall k | 0 <= k < |cells| :: Trim(cells[k].strongText) != headerText
    ensures i >= 0 ==> Trim(cells[i].strongText) == headerText
    ensures i >= 0 ==> forall k | 0 <= k < i :: Trim(cells[k].strongText) != headerText
  {
    if cells == [] then -1
    else if Trim(cells[0].strongText) == headerText then 0
    else
      var j := HeaderIndex(cells[1..], headerText);
      if j == -1 then -1 else j + 1
  }

  /** `findIndexByHeaderText`: a linear search that stops at the first matching cell. */
  method FindIndexByHeaderText(cells: seq<Cell>, headerText: string) returns (index: int)
    ensures index == HeaderIndex(cells, headerText)
  {
    index := -1;
    var i := 0;
    while i < |cells|
      invariant 0 <= i <= |cells|
      invariant index == -1
      invariant forall k | 0 <= k < i :: Trim(cells[k].strongText) != headerText
    {
      if Trim(cells[i].strongText) == headerText {
        index := i;
        break;
      }
      i := i + 1;
    }
  }

  /** Column positions read from the header row; -1 marks a header that is not there. */
  datatype Columns = Columns(parameter: int, description: int, typeToken: int, required: int)

  function LocateColumns(header: Row): Columns {
    Columns(HeaderIndex(header.cells, ParameterHeader), HeaderIndex(header.cells, DescriptionHeader),
            HeaderIndex(header.cells, TypeHeader), HeaderIndex(header.cells, RequiredHeader))
  }

  /**
   * cheerio's `.eq(i)` on the cells of a row: a negative position counts from the end,
   * so the -1 of a missing column selects the LAST cell; a position outside the row
   * selects nothing.
   */
  function CellAt(cells: seq<Cell>, i: int): (r: Option<Cell>)
    ensures r.Some? <==> -|cells| <= i < |cells|
  {
    if 0 <= i < |cells| then Some(cells[i])
    else if -|cells| <= i < 0 then Some(cells[|cells| + i])
    else None
  }

  /** `.find('p').text().trim()` of the selected cell: empty when nothing is selected. */
  function CellText(cells: seq<Cell>, i: int): string {
    match CellAt(cells, i)
    case None => ""
    case Some(cell) => Trim(cell.paraText)
  }

  /** A column whose header is missing is read from the last cell of each data row, not skipped. */
  lemma MissingColumnReadsLastCell(header: Row, headerText: string, cells: seq<Cell>)
    requires forall k | 0 <= k < |header.cells| :: Trim(header.cells[k].strongText) != headerText
    requires |cells| > 0
    ensures CellText(cells, HeaderIndex(header.cells, headerText)) == Trim(cells[|cells| - 1].paraText)
  {
  }

  /** With no cells at all, every column reads as empty. */
  lemma EmptyRowReadsNothing(i: int)
    ensures CellText([], i) == ""
  {
  }

  /** The role label names: request, response data and path parameter tables. */
  const InterfaceTypeMappings: map<string, string> := map[
    "request" := "payload",
    "responsedata" := "response",
    "pathparameter" := "pathParameter"
  ]

  /** The role of a table whose label is unknown. */
  const DefaultRole := "payload"

  /** The label with whitespace removed and lower-cased. */
  function RoleKey(labelText: string): string {
    ToLower(RemoveSpaces(Trim(labelText)))
  }

  /** The interface-name suffix: toPascalCase, passed in as `pascal`, of the mapped role. */
  function RoleSuffix(labelText: string, pascal: string -> string): string {
    var key := RoleKey(labelText);
    pascal(if key in InterfaceTypeMappings then InterfaceTypeMappings[key] else DefaultRole)
  }

  /** What toPascalCase does to the three role names. */
  predicate RolesPascal(pascal: string -> string) {
    pascal("payload") == "Payload" && pascal("response") == "Response"
    && pascal("pathParameter") == "PathParameter"
  }

  const Suffixes: set<string> := {"Payload", "Response", "PathParameter"}

  /** The suffix is one of the three role names, `Payload` for every label it does not know. */
  lemma SuffixIsRoleName(labelText: string, pascal: string -> string)
    requires RolesPascal(pascal)
    ensures RoleSuffix(labelText, pascal) in Suffixes
    ensures RoleSuffix(labelText, pascal) == "Response" <==> RoleKey(labelText) == "responsedata"
    ensures RoleSuffix(labelText, pascal) == "PathParameter" <==> RoleKey(labelText) == "pathparameter"
    ensures RoleSuffix(labelText, pascal) != "Request"
  {
  }

  /** A request table is named with the `Payload` suffix, never `Request`. */
  lemma RequestLabelExample(pascal: string -> string)
    requires RolesPascal(pascal)
    ensures RoleSuffix("Request", pascal) == "Payload"
  {
    TrimUnchanged("Request");
    assert RemoveSpaces("Request") == "Request";
    LowerOf("Request", "request");
  }

  predicate IsAsciiLetter(c: char) {
    'a' <= c <= 'z' || 'A' <= c <= 'Z'
  }

  /** `bracketRegex`, `^[a-zA-Z]+\[\]$`: one or more letters followed by `[]`. */
  predicate IsBracketName(p: string) {
    |p| >= 3 && p[|p| - 2..] == "[]" && forall k | 0 <= k < |p| - 2 :: IsAsciiLetter(p[k])
  }

  /** Removing `[]` from letters followed by one `[]` leaves the letters. */
  lemma {:induction false} DeleteBracketsAfterLetters(p: string)
    requires |p| >= 2 && p[|p| - 2..] == "[]"
    requires forall k | 0 <= k < |p| - 2 :: IsAsciiLetter(p[k])
    ensures DeleteAll(p, "[]") == p[..|p| - 2]
  {
    if |p| > 2 {
      assert p[..2] != "[]" by { assert IsAsciiLetter(p[0]); }
      assert p[1..][|p| - 3..] == "[]";
      DeleteBracketsAfterLetters(p[1..]);
      assert [p[0]] + p[1..][..|p| - 3] == p[..|p| - 2];
    }
  }

  /**
   * The field name: a name of letters followed by `[]` loses the `[]`
   * (`replace(/\[\]/g, '')`); every other name is kept as it is.
   */
  function StripBrackets(p: string): (r: string)
    ensures IsBracketName(p) ==> r == p[..|p| - 2] && |r| >= 1
    ensures !IsBracketName(p) ==> r == p
  {
    if IsBracketName(p) then
      DeleteBracketsAfterLetters(p);
      DeleteAll(p, "[]")
    else p
  }

  lemma BracketExamples()
    ensures StripBrackets("items[]") == "items"
    ensures StripBrackets("a_b[]") == "a_b[]"
    ensures StripBrackets("x[][]") == "x[][]"
    ensures StripBrackets("ids") == "ids"
  {
    assert "items[]"[5..] == "[]";
    assert "items[]"[..5] == "items";
    assert !IsAsciiLetter("a_b[]"[1]);
    assert !IsAsciiLetter("x[][]"[1]);
  }

  /** One field of a generated interface. */
  datatype Field = Field(name: string, description: string, typeName: string, optional: bool)

  /** JavaScript's `text || fallback` on strings. */
  function OrDefault(text: string, fallback: string): string {
    if text == "" then fallback else text
  }

  const RequiredDefault := "N"
  const TypeDefault := "any"

  /** The parameter cell of a data row is missing or holds only whitespace. */
  predicate ParameterBlank(cells: seq<Cell>, cols: Columns) {
    match CellAt(cells, cols.parameter)
    case None => true
    case Some(cell) => AllSpace(cell.paraText)
  }

  /** The trimmed parameter text is empty exactly when the parameter cell is blank. */
  lemma ParameterTextEmpty(cells: seq<Cell>, cols: Columns)
    ensures CellText(cells, cols.parameter) == "" <==> ParameterBlank(cells, cols)
  {
    if CellAt(cells, cols.parameter).Some? {
      TrimSpec(CellAt(cells, cols.parameter).value.paraText);
    }
  }

  /**
   * The field one data row describes, or none when its parameter cell is blank. Only a
   * table whose suffix is `Request` makes a field optional, when its Required text is not `Y`.
   */
  function RowField(cells: seq<Cell>, cols: Columns, suffix: string): (r: Option<Field>)
    ensures r.None? <==> ParameterBlank(cells, cols)
    ensures r.Some? ==> r.value.name != ""
    ensures r.Some? ==> IsKnownTypeName(BaseName(r.value.typeName))
    ensures r.Some? && r.value.optional ==> suffix == "Request"
  {
    ParameterTextEmpty(cells, cols);
    var description := CellText(cells, cols.description);
    var required := OrDefault(CellText(cells, cols.required), RequiredDefault);
    var parameter := CellText(cells, cols.parameter);
    var typeToken := OrDefault(CellText(cells, cols.typeToken), TypeDefault);
    if parameter == "" then None
    else
      var isRequired := if suffix == "Request" then required == "Y" else true;
      Some(Field(StripBrackets(parameter), description, GetTypeName(typeToken), !isRequired))
  }

  /**
   * A field is read from its own row: the name is the trimmed parameter text without a
   * trailing `[]`, the description is the trimmed description text, and the type is
   * `getTypeName` of the trimmed type text, an empty type cell counting as `any`. The field
   * is optional exactly when the suffix is `Request` and the Required text, `N` when the
   * cell is empty, is not `Y`.
   */
  lemma RowFieldContents(cells: seq<Cell>, cols: Columns, suffix: string)
    requires RowField(cells, cols, suffix).Some?
    ensures var f, p, t := RowField(cells, cols, suffix).value, CellText(cells, cols.parameter),
                           CellText(cells, cols.typeToken);
            f.name == (if IsBracketName(p) then p[..|p| - 2] else p)
            && f.description == CellText(cells, cols.description)
            && (t == "" ==> f.typeName == "any")
            && (t != "" ==> f.typeName == GetTypeName(t))
            && f.optional == (suffix == "Request" && OrDefault(CellText(cells, cols.required), RequiredDefault) != "Y")
  {
    if CellText(cells, cols.typeToken) == "" {
      LowerOf("any", "any");
      MappedToken("any");
    }
  }

  /** The fields of the data rows, in row order, skipping rows with a blank parameter. */
  function Fields(rows: seq<Row>, cols: Columns, suffix: string): (fs: seq<Field>)
    ensures |fs| <= |rows|
  {
    if rows == [] then []
    else
      var init := Fields(rows[..|rows| - 1], cols, suffix);
      match RowField(rows[|rows| - 1].cells, cols, suffix)
      case None => init
      case Some(f) => init + [f]
  }

  /** The fields of consecutive runs of rows come one after the other. */
  lemma {:induction false} FieldsAppend(a: seq<Row>, b: seq<Row>, cols: Columns, suffix: string)
    ensures Fields(a + b, cols, suffix) == Fields(a, cols, suffix) + Fields(b, cols, suffix)
    decreases |b|
  {
    if b != [] {
      var b' := b[..|b| - 1];
      assert (a + b)[..|a + b| - 1] == a + b';
      assert (a + b)[|a + b| - 1] == b[|b| - 1];
      FieldsAppend(a, b', cols, suffix);
    } else {
      assert a + b == a;
    }
  }

  /** Rows yield no field exactly when every one of them has a blank parameter cell. */
  lemma {:induction false} FieldsEmpty(rows: seq<Row>, cols: Columns, suffix: string)
    ensures Fields(rows, cols, suffix) == [] <==>
            forall k | 0 <= k < |rows| :: ParameterBlank(rows[k].cells, cols)
  {
    if rows != [] {
      var init := rows[..|rows| - 1];
      FieldsEmpty(init, cols, suffix);
      assert forall k | 0 <= k < |init| :: init[k] == rows[k];
    }
  }

  /** Every field comes from a row, and none is optional unless the suffix is `Request`. */
  lemma {:induction false} FieldsNeverOptional(rows: seq<Row>, cols: Columns, suffix: string)
    requires suffix != "Request"
    ensures forall k | 0 <= k < |Fields(rows, cols, suffix)| :: !Fields(rows, cols, suffix)[k].optional
  {
    if rows != [] {
      FieldsNeverOptional(rows[..|rows| - 1], cols, suffix);
    }
  }
}
