/**
 * The type mapper: turns the type token written in a documentation table into the
 * TypeScript type name of the generated field (`getTypeName` over `apiTypeMappings`).
 */
module TypeMapper {
  import opened JsString

  /** Documentation type token (lower case) to TypeScript type name. */
  const ApiTypeMappings: map<string, string> := map[
    "any" := "any",
    "string" := "string",
    "html" := "string",
    "number" := "number",
    "float" := "number",
    "boolean" := "boolean",
    "date" := "APIDate",
    "datetime" := "APIDateTime",
    "enum" := "APICode<string>",
    "price" := "APIMoney",
    "array<enum>" := "APICode<string>[]"
  ]

  /** The fallback for tokens the table does not know. */
  const Fallback := "any"

  /** What a leading `#` on a token adds to the type. */
  const NullSuffix := " | null"

  /** Marks a token as nullable. */
  const NullableMarker := '#'

  predicate IsNullableName(r: string) {
    |r| >= |NullSuffix| && r[|r| - |NullSuffix|..] == NullSuffix
  }

  /** The type name without its ` | null` part. */
  function BaseName(r: string): string {
    if IsNullableName(r) then r[..|r| - |NullSuffix|] else r
  }

  /** Every type name the table can produce, the fallback included. */
  predicate IsKnownTypeName(r: string) {
    r == Fallback || exists key | key in ApiTypeMappings :: ApiTypeMappings[key] == r
  }

  /**
   * The TypeScript type for a documentation token: lower-case it, strip one leading `#`,
   * look the rest up (unknown tokens, the empty one included, give `any`) and append
   * ` | null` exactly when a `#` was stripped.
   */
  function GetTypeName(token: string): (r: string)
    ensures IsNullableName(r) <==> |token| > 0 && token[0] == NullableMarker
    ensures IsKnownTypeName(BaseName(r))
  {
    var t := ToLower(token);
    var nullable := |t| > 0 && t[0] == NullableMarker;
    var key := if nullable then t[1..] else t;
    var typeName := if key in ApiTypeMappings then ApiTypeMappings[key] else Fallback;
    assert !IsNullableName(typeName);
    var r := if nullable then typeName + NullSuffix else typeName;
    assert nullable ==> r[..|r| - |NullSuffix|] == typeName;
    r
  }

  /** The lookup is case-insensitive: a token and its lower-case form give the same type. */
  lemma CaseInsensitive(token: string)
    ensures GetTypeName(ToLower(token)) == GetTypeName(token)
  {
    ToLowerIdempotent(token);
  }

  /** A leading `#` turns the type of the rest of the token into its nullable union. */
  lemma NullableMarkerAddsNull(token: string)
    requires token == [] || token[0] != NullableMarker
    ensures GetTypeName([NullableMarker] + token) == GetTypeName(token) + NullSuffix
  {
    assert ([NullableMarker] + token)[1..] == token;
    var t := ToLower([NullableMarker] + token);
    assert t[1..] == ToLower(token);
  }

  /** Tokens outside the table (after lower-casing, with no `#`) resolve to `any`. */
  lemma UnmappedIsAny(token: string)
    requires ToLower(token) !in ApiTypeMappings
    requires token == [] || token[0] != NullableMarker
    ensures GetTypeName(token) == Fallback
  {
  }

  /** Each table entry is reached from its own key, whatever its case. */
  lemma MappedToken(token: string)
    requires ToLower(token) in ApiTypeMappings
    ensures GetTypeName(token) == ApiTypeMappings[ToLower(token)]
  {
    assert ToLower(token) != [] && ToLower(token)[0] != NullableMarker by {
      assert forall key | key in ApiTypeMappings :: key != [] && key[0] != NullableMarker;
    }
  }

  lemma NullableDateExample()
    ensures GetTypeName("#Date") == "APIDate | null"
  {
    LowerOf("Date", "date");
    MappedToken("Date");
    assert GetTypeName("Date") == "APIDate";
    NullableMarkerAddsNull("Date");
    assert [NullableMarker] + "Date" == "#Date";
  }

  /** Tokens are looked up in lower case: `DATE` is `date`, `Array<Enum>` is `array<enum>`. */
  lemma MixedCaseExamples()
    ensures GetTypeName("DATE") == "APIDate"
    ensures GetTypeName("Array<Enum>") == "APICode<string>[]"
  {
    LowerOf("DATE", "date");
    MappedToken("DATE");
    LowerOf("Array<Enum>", "array<enum>");
    MappedToken("Array<Enum>");
  }

  lemma EmptyTokenExample()
    ensures GetTypeName("") == "any"
  {
    UnmappedIsAny("");
  }

  /** Only one `#` is stripped: a second one makes the rest unknown. */
  lemma DoubleMarkerExample()
    ensures GetTypeName("##date") == "any | null"
  {
    LowerOf("##date", "##date");
    assert ToLower("##date")[1..] == "#date";
    assert "#date" !in ApiTypeMappings;
  }
}
