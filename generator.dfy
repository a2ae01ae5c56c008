/**
 * The interface renderer and the driver of `generateInterfaceCode`: every table of every
 * documentation block becomes at most one `interface` block, and the blocks are joined,
 * in document order, with a blank line between them.
 */
module Generator {
  import opened Wrappers
  import opened JsString
  import opened HeadingParser
  import opened Tables
  import opened TypeMapper

  /** One `.plugin-tabmeta-details` block: the text of its `h1[id]` heading and its `.confluenceTable` tables. */
  datatype ApiDoc = ApiDoc(headingText: string, tables: seq<Table>)

  /** What one table turns into: a skip, with its reason, or an interface with its fields. */
  datatype TableOutcome =
    | TooFewRows
    | ErrorCodeTable
    | NoFields
    | Interface(name: string, fields: seq<Field>)

  /** A table needs a label row, a header row and at least one data row. */
  const MinRows := 3

  /** The heading fields of a block, read from its trimmed heading text. */
  function DocInfo(doc: ApiDoc, pascal: string -> string): ApiInfo {
    ParseApiInfo(Trim(doc.headingText), pascal)
  }

  /**
   * The table classifier: too short, an error-code table (more than one header cell in
   * the label row), a table whose rows give no field, or an interface named
   * method + API name + role suffix holding the fields of the data rows.
   */
  function ClassifyTable(info: ApiInfo, table: Table, pascal: string -> string): (r: TableOutcome)
    ensures r.TooFewRows? <==> |table| < MinRows
    ensures r.ErrorCodeTable? <==> |table| >= MinRows && table[0].thCount > 1
    ensures r.Interface? ==> 0 < |r.fields| <= |table| - 2
  {
    if |table| < MinRows then TooFewRows
    else if table[0].thCount > 1 then ErrorCodeTable
    else
      var suffix := RoleSuffix(table[0].labelText, pascal);
      var fields := Fields(table[2..], LocateColumns(table[1]), suffix);
      if fields == [] then NoFields
      else Interface(info.httpMethod + info.apiName + suffix, fields)
  }

  /** One field line: its description as a doc comment, then the declaration on a tab-indented line. */
  function RenderField(f: Field): string {
    "/** " + f.description + " */\n\t" + f.name + (if f.optional then "?" else "") + ": " + f.typeName + ";"
  }

  function RenderFields(fields: seq<Field>): (lines: seq<string>)
    ensures |lines| == |fields|
  {
    if fields == [] then []
    else RenderFields(fields[..|fields| - 1]) + [RenderField(fields[|fields| - 1])]
  }

  /** The interface block, fenced by region comments that carry the API title. */
  function RenderInterface(title: string, name: string, lines: seq<string>): string {
    "// #region " + title + "\ninterface " + name + " {\n\t" + Join(lines, "\n\n") + "\n}\n// #endregion"
  }

  /** The block one table contributes, if any. */
  function TableBlock(info: ApiInfo, table: Table, pascal: string -> string): Option<string> {
    match ClassifyTable(info, table, pascal)
    case Interface(name, fields) => Some(RenderInterface(info.apiTitle, name, RenderFields(fields)))
    case _ => None
  }

  /** The blocks of a block's tables, in table order. */
  function TablesBlocks(info: ApiInfo, tables: seq<Table>, pascal: string -> string): (blocks: seq<string>)
    ensures |blocks| <= |tables|
  {
    if tables == [] then []
    else
      var init := TablesBlocks(info, tables[..|tables| - 1], pascal);
      match TableBlock(info, tables[|tables| - 1], pascal)
      case None => init
      case Some(b) => init + [b]
  }

  /** The blocks of one documentation block's tables. */
  function DocBlocks(doc: ApiDoc, pascal: string -> string): seq<string> {
    TablesBlocks(DocInfo(doc, pascal), doc.tables, pascal)
  }

  /** The blocks `blocksOf` gives each documentation block, one block's after the other's. */
  function ConcatBlocks(docs: seq<ApiDoc>, blocksOf: ApiDoc -> seq<string>): seq<string> {
    if docs == [] then []
    else ConcatBlocks(docs[..|docs| - 1], blocksOf) + blocksOf(docs[|docs| - 1])
  }

  function BlocksOf(pascal: string -> string): ApiDoc -> seq<string> {
    doc => DocBlocks(doc, pascal)
  }

  /** The blocks of all documentation blocks, in document order. */
  function DocsBlocks(docs: seq<ApiDoc>, pascal: string -> string): seq<string> {
    ConcatBlocks(docs, BlocksOf(pascal))
  }

  /** The generated file: all blocks joined with a blank line. */
  function InterfaceCode(docs: seq<ApiDoc>, pascal: string -> string): string {
    Join(DocsBlocks(docs, pascal), "\n\n")
  }

  /** The `map` over the data rows: one line per row with a parameter, in row order. */
  method RenderRows(rows: seq<Row>, cols: Columns, suffix: string) returns (lines: seq<string>)
    ensures lines == RenderFields(Fields(rows, cols, suffix))
  {
    ghost var fields: seq<Field> := [];
    lines := [];
    var k := 0;
    while k < |rows|
      invariant 0 <= k <= |rows|
      invariant fields == Fields(rows[..k], cols, suffix)
      invariant lines == RenderFields(fields)
    {
      assert rows[..k + 1][..k] == rows[..k];
      var f := RowField(rows[k].cells, cols, suffix);
      if f.Some? {
        assert (fields + [f.value])[..|fields|] == fields;
        fields := fields + [f.value];
        lines := lines + [RenderField(f.value)];
      }
      k := k + 1;
    }
    assert rows[..k] == rows;
  }

  /** The four `findIndexByHeaderText` calls on the header row. */
  method FindColumns(header: Row) returns (cols: Columns)
    ensures cols == LocateColumns(header)
  {
    var parameterIndex := FindIndexByHeaderText(header.cells, ParameterHeader);
    var descriptionIndex := FindIndexByHeaderText(header.cells, DescriptionHeader);
    var typeIndex := FindIndexByHeaderText(header.cells, TypeHeader);
    var requiredIndex := FindIndexByHeaderText(header.cells, RequiredHeader);
    cols := Columns(parameterIndex, descriptionIndex, typeIndex, requiredIndex);
  }

  /** The body of the per-table callback: the two skips, the column lookup, the rows and the block. */
  method RenderTable(info: ApiInfo, table: Table, pascal: string -> string) returns (block: Option<string>)
    ensures block == TableBlock(info, table, pascal)
  {
    if |table| < MinRows {
      return None;
    }
    if table[0].thCount > 1 {
      return None;
    }
    var suffix := RoleSuffix(table[0].labelText, pascal);
    var name := info.httpMethod + info.apiName + suffix;
    var cols := FindColumns(table[1]);
    var lines := RenderRows(table[2..], cols, suffix);
    if |lines| > 0 {
      block := Some(RenderInterface(info.apiTitle, name, lines));
    } else {
      block := None;
    }
  }

  /** The inner `tables.each`: the blocks of one documentation block's tables, in order. */
  method RenderTables(info: ApiInfo, tables: seq<Table>, pascal: string -> string) returns (blocks: seq<string>)
    ensures blocks == TablesBlocks(info, tables, pascal)
  {
    blocks := [];
    var j := 0;
    while j < |tables|
      invariant 0 <= j <= |tables|
      invariant blocks == TablesBlocks(info, tables[..j], pascal)
    {
      assert tables[..j + 1][..j] == tables[..j];
      var block := RenderTable(info, tables[j], pascal);
      if block.Some? {
        blocks := blocks + [block.value];
      }
      j := j + 1;
    }
    assert tables[..j] == tables;
  }

  /**
   * `generateInterfaceCode`: visits the documentation blocks in order, collects the blocks
   * of their tables, and joins them with a blank line.
   */
  method GenerateInterfaceCode(docs: seq<ApiDoc>, pascal: string -> string) returns (code: string)
    ensures code == InterfaceCode(docs, pascal)
  {
    var interfaces: seq<string> := [];
    var i := 0;
    while i < |docs|
      invariant 0 <= i <= |docs|
      invariant interfaces == DocsBlocks(docs[..i], pascal)
    {
      var doc := docs[i];
      var info := ParseApiInfo(Trim(doc.headingText), pascal);
      assert docs[..i + 1][..i] == docs[..i];
      if |doc.tables| > 0 {
        var blocks := RenderTables(info, doc.tables, pascal);
        interfaces := interfaces + blocks;
      }
      i := i + 1;
    }
    assert docs[..i] == docs;
    code := Join(interfaces, "\n\n");
  }

  /**
   * A table contributes a block exactly when it has at least three rows, at most one header
   * cell in its label row, and a data row whose parameter cell is not blank.
   */
  lemma TableContributes(info: ApiInfo, table: Table, pascal: string -> string)
    ensures TableBlock(info, table, pascal).Some? <==>
              |table| >= MinRows && table[0].thCount <= 1
              && exists k | 2 <= k < |table| :: !ParameterBlank(table[k].cells, LocateColumns(table[1]))
  {
    if |table| >= MinRows && table[0].thCount <= 1 {
      var rows := table[2..];
      var cols := LocateColumns(table[1]);
      FieldsEmpty(rows, cols, RoleSuffix(table[0].labelText, pascal));
      assert forall k | 0 <= k < |rows| :: rows[k] == table[k + 2];
      if exists k | 2 <= k < |table| :: !ParameterBlank(table[k].cells, cols) {
        var k :| 2 <= k < |table| && !ParameterBlank(table[k].cells, cols);
        assert rows[k - 2] == table[k];
      }
    }
  }

  /**
   * The interface is named method + API name + one of the three role suffixes, and,
   * because that suffix is never `Request`, none of its fields is optional.
   */
  lemma InterfaceNameAndFields(info: ApiInfo, table: Table, pascal: string -> string)
    requires RolesPascal(pascal)
    requires ClassifyTable(info, table, pascal).Interface?
    ensures var r := ClassifyTable(info, table, pascal);
            var suffix := RoleSuffix(table[0].labelText, pascal);
            suffix in Suffixes && r.name == info.httpMethod + info.apiName + suffix
            && forall k | 0 <= k < |r.fields| :: !r.fields[k].optional
  {
    var suffix := RoleSuffix(table[0].labelText, pascal);
    SuffixIsRoleName(table[0].labelText, pascal);
    FieldsNeverOptional(table[2..], LocateColumns(table[1]), suffix);
  }

  /** Without the optionality marker a field line is its comment, its name, a colon and its type. */
  lemma RequiredFieldLine(f: Field)
    requires !f.optional
    ensures RenderField(f) == "/** " + f.description + " */\n\t" + f.name + ": " + f.typeName + ";"
  {
  }

  /** Line k of the rendered fields is the rendering of field k. */
  lemma {:induction false} RenderFieldsSpec(fields: seq<Field>)
    ensures forall k | 0 <= k < |fields| :: RenderFields(fields)[k] == RenderField(fields[k])
  {
    if fields != [] {
      RenderFieldsSpec(fields[..|fields| - 1]);
    }
  }

  /**
   * Every line of an emitted interface is a doc comment with the field's description, then
   * its name, `: `, its type and `;` on a tab-indented line: no line carries the `?` marker.
   */
  lemma InterfaceLines(info: ApiInfo, table: Table, pascal: string -> string)
    requires RolesPascal(pascal)
    requires ClassifyTable(info, table, pascal).Interface?
    ensures var fields := ClassifyTable(info, table, pascal).fields;
            forall k | 0 <= k < |fields| ::
              RenderFields(fields)[k]
              == "/** " + fields[k].description + " */\n\t" + fields[k].name + ": " + fields[k].typeName + ";"
  {
    var fields := ClassifyTable(info, table, pascal).fields;
    InterfaceNameAndFields(info, table, pascal);
    RenderFieldsSpec(fields);
    forall k | 0 <= k < |fields|
      ensures RenderFields(fields)[k]
              == "/** " + fields[k].description + " */\n\t" + fields[k].name + ": " + fields[k].typeName + ";"
    {
      RequiredFieldLine(fields[k]);
    }
  }

  /** The lines of a list of fields are the lines of its parts, one after the other. */
  lemma {:induction false} RenderFieldsAppend(a: seq<Field>, b: seq<Field>)
    ensures RenderFields(a + b) == RenderFields(a) + RenderFields(b)
    decreases |b|
  {
    if b == [] {
      assert a + b == a;
    } else {
      assert (a + b)[..|a + b| - 1] == a + b[..|b| - 1];
      RenderFieldsAppend(a, b[..|b| - 1]);
    }
  }

  /** The blocks of consecutive tables come one after the other. */
  lemma {:induction false} TablesBlocksAppend(info: ApiInfo, a: seq<Table>, b: seq<Table>, pascal: string -> string)
    ensures TablesBlocks(info, a + b, pascal) == TablesBlocks(info, a, pascal) + TablesBlocks(info, b, pascal)
    decreases |b|
  {
    if b == [] {
      assert a + b == a;
    } else {
      assert (a + b)[..|a + b| - 1] == a + b[..|b| - 1];
      assert (a + b)[|a + b| - 1] == b[|b| - 1];
      TablesBlocksAppend(info, a, b[..|b| - 1], pascal);
    }
  }

  /** One more documentation block adds its own blocks at the end. */
  lemma DocsBlocksSnoc(docs: seq<ApiDoc>, doc: ApiDoc, pascal: string -> string)
    ensures DocsBlocks(docs + [doc], pascal) == DocsBlocks(docs, pascal) + DocBlocks(doc, pascal)
  {
    assert (docs + [doc])[..|docs|] == docs;
  }

  /** Concatenating the blocks of consecutive runs of documentation blocks keeps their order. */
  lemma {:induction false} ConcatBlocksAppend(a: seq<ApiDoc>, b: seq<ApiDoc>, blocksOf: ApiDoc -> seq<string>)
    ensures ConcatBlocks(a + b, blocksOf) == ConcatBlocks(a, blocksOf) + ConcatBlocks(b, blocksOf)
    decreases |b|
  {
    if b == [] {
      assert a + b == a;
    } else {
      assert (a + b)[..|a + b| - 1] == a + b[..|b| - 1];
      assert (a + b)[|a + b| - 1] == b[|b| - 1];
      ConcatBlocksAppend(a, b[..|b| - 1], blocksOf);
    }
  }

  /** The blocks of consecutive documentation blocks come one after the other: document order. */
  lemma DocsBlocksAppend(a: seq<ApiDoc>, b: seq<ApiDoc>, pascal: string -> string)
    ensures DocsBlocks(a + b, pascal) == DocsBlocks(a, pascal) + DocsBlocks(b, pascal)
  {
    ConcatBlocksAppend(a, b, BlocksOf(pascal));
  }

  /**
   * The output for two runs of documentation is the output for the first, a blank line and
   * the output for the second, when both yield something; a run that yields nothing adds nothing.
   */
  lemma InterfaceCodeAppend(a: seq<ApiDoc>, b: seq<ApiDoc>, pascal: string -> string)
    ensures DocsBlocks(a, pascal) != [] && DocsBlocks(b, pascal) != [] ==>
              InterfaceCode(a + b, pascal) == InterfaceCode(a, pascal) + "\n\n" + InterfaceCode(b, pascal)
    ensures DocsBlocks(b, pascal) == [] ==> InterfaceCode(a + b, pascal) == InterfaceCode(a, pascal)
    ensures DocsBlocks(a, pascal) == [] ==> InterfaceCode(a + b, pascal) == InterfaceCode(b, pascal)
  {
    DocsBlocksAppend(a, b, pascal);
    var x, y := DocsBlocks(a, pascal), DocsBlocks(b, pascal);
    if x != [] && y != [] {
      JoinAppend(x, y, "\n\n");
    } else if y == [] {
      assert x + y == x;
    } else {
      assert x + y == y;
    }
  }

  /** A request table: its role label, the four headers, and one data row for a `name` string. */
  const UsersTable: Table := [
    Row(1, "Request", []),
    Row(0, "", [Cell("Parameter", ""), Cell("Parameter Description", ""), Cell("Type", ""), Cell("Required", "")]),
    Row(0, "", [Cell("", "name"), Cell("", "user name"), Cell("", "string"), Cell("", "N")])
  ]

  /** The headers of the example table sit in columns 0 to 3. */
  lemma UsersTableColumns()
    ensures LocateColumns(UsersTable[1]) == Columns(0, 1, 2, 3)
  {
    TrimUnchanged("Parameter");
    TrimUnchanged("Parameter Description");
    TrimUnchanged("Type");
    TrimUnchanged("Required");
  }

  /** The trimmed texts of the example's data cells. */
  lemma UsersRowCells()
    ensures var cells := UsersTable[2].cells;
            CellText(cells, 0) == "name" && CellText(cells, 1) == "user name"
            && CellText(cells, 2) == "string" && CellText(cells, 3) == "N"
  {
    TrimUnchanged("name");
    TrimUnchanged("user name");
    TrimUnchanged("string");
    TrimUnchanged("N");
  }

  /** The data row gives a required `name` of type `string`, even though its Required text is `N`. */
  lemma UsersRowField()
    ensures RowField(UsersTable[2].cells, Columns(0, 1, 2, 3), "Payload")
            == Some(Field("name", "user name", "string", false))
  {
    UsersRowCells();
    LowerOf("string", "string");
    MappedToken("string");
    assert StripBrackets("name") == "name";
  }

  /** The suffix, the columns and the fields the example table yields. */
  lemma UsersTableParts(pascal: string -> string)
    requires RolesPascal(pascal)
    ensures RoleSuffix(UsersTable[0].labelText, pascal) == "Payload"
    ensures LocateColumns(UsersTable[1]) == Columns(0, 1, 2, 3)
    ensures Fields(UsersTable[2..], Columns(0, 1, 2, 3), "Payload") == [Field("name", "user name", "string", false)]
  {
    RequestLabelExample(pascal);
    UsersTableColumns();
    UsersRowField();
    assert UsersTable[2..] == [UsersTable[2]];
    assert [UsersTable[2]][..0] == [];
  }

  /** The classification of a table that passes both skips and yields fields. */
  lemma ClassifiedAsInterface(info: ApiInfo, table: Table, pascal: string -> string,
                              suffix: string, cols: Columns, fields: seq<Field>)
    requires |table| >= MinRows && table[0].thCount <= 1
    requires RoleSuffix(table[0].labelText, pascal) == suffix && LocateColumns(table[1]) == cols
    requires Fields(table[2..], cols, suffix) == fields != []
    ensures ClassifyTable(info, table, pascal) == Interface(info.httpMethod + info.apiName + suffix, fields)
  {
  }

  /** The example table becomes the `PostUsersPayload` interface, its one field not optional. */
  lemma UsersTableFields(pascal: string -> string)
    requires RolesPascal(pascal)
    ensures ClassifyTable(ApiInfo("Post", "/users", "Create User", "Users"), UsersTable, pascal)
            == Interface("PostUsersPayload", [Field("name", "user name", "string", false)])
  {
    assert "Post" + "Users" + "Payload" == "PostUsersPayload";
    UsersTableParts(pascal);
    ClassifiedAsInterface(ApiInfo("Post", "/users", "Create User", "Users"), UsersTable, pascal,
                          "Payload", Columns(0, 1, 2, 3), [Field("name", "user name", "string", false)]);
  }

  lemma UsersLine()
    ensures RenderFields([Field("name", "user name", "string", false)]) == ["/** user name */\n\tname: string;"]
  {
    var f := Field("name", "user name", "string", false);
    assert [f][..0] == [];
    assert RenderField(f) == "/** user name */\n\tname: string;";
  }

  /** The block of the example table, with its region comments, interface line and field line. */
  lemma UsersTableBlock(pascal: string -> string)
    requires RolesPascal(pascal)
    ensures TableBlock(ApiInfo("Post", "/users", "Create User", "Users"), UsersTable, pascal)
            == Some(RenderInterface("Create User", "PostUsersPayload", ["/** user name */\n\tname: string;"]))
  {
    UsersTableFields(pascal);
    UsersLine();
  }

  lemma UsersDocInfo(pascal: string -> string)
    requires pascal("users") == "Users"
    ensures DocInfo(ApiDoc(Heading("POST", "/users", "Create User"), [UsersTable]), pascal) == ApiInfo("Post", "/users", "Create User", "Users")
  {
    HeadingLayout("POST", "/users", "Create User");
    TrimUnchanged(Heading("POST", "/users", "Create User"));
    UsersHeadingExample(pascal);
  }

  /** The output of a page with one documentation block holding one table that yields a block. */
  lemma SingleBlockPage(doc: ApiDoc, pascal: string -> string, block: string)
    requires doc.tables != [] && TableBlock(DocInfo(doc, pascal), doc.tables[0], pascal) == Some(block)
    requires |doc.tables| == 1
    ensures InterfaceCode([doc], pascal) == block
  {
    var info := DocInfo(doc, pascal);
    assert doc.tables[..0] == [];
    assert TablesBlocks(info, doc.tables[..0], pascal) == [];
    assert TablesBlocks(info, doc.tables, pascal) == [block];
    assert DocBlocks(doc, pascal) == [block];
    assert DocsBlocks([], pascal) == [];
    DocsBlocksSnoc([], doc, pascal);
    assert [] + [doc] == [doc];
    assert DocsBlocks([doc], pascal) == [block];
  }

  /** A whole page with one request table, from heading to generated text. */
  lemma UsersPageExample(pascal: string -> string)
    requires RolesPascal(pascal) && pascal("users") == "Users"
    ensures InterfaceCode([ApiDoc(Heading("POST", "/users", "Create User"), [UsersTable])], pascal)
            == RenderInterface("Create User", "PostUsersPayload", ["/** user name */\n\tname: string;"])
  {
    UsersDocInfo(pascal);
    UsersTableBlock(pascal);
    SingleBlockPage(ApiDoc(Heading("POST", "/users", "Create User"), [UsersTable]), pascal,
                    RenderInterface("Create User", "PostUsersPayload", ["/** user name */\n\tname: string;"]));
  }
}
