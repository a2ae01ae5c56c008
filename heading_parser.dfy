/**
 * The heading parser: reads `<METHOD> <url> - <title>` from the heading of one API
 * documentation block (`parseApiInfo`) and derives the API's name from its URL
 * (`getApiName`, `capitalizeFirstLetter`).
 *
 * The source uses the regular expression `^(GET|POST|PUT|DELETE|PATCH)\s+(.*?)\s+-\s+(.*)$`.
 * Here it is a hand-written matcher that tries the quantifier counts in the order a
 * backtracking engine does: the first `\s+` longest first, the URL `(.*?)` shortest first,
 * then the second and third `\s+` longest first. `IsMatch` says when one choice of counts
 * fits the text, `TriedBefore` is the engine's order, and `MatchHeading` is proved to return
 * the first choice that fits, or nothing when none does.
 */
module HeadingParser {
  import opened Wrappers
  import opened JsString

  /** The alternatives of the method group, in the order the pattern lists them. */
  const Methods: seq<string> := ["GET", "POST", "PUT", "DELETE", "PATCH"]

  /** The heading's fields; all empty but the title when the heading does not match. */
  datatype ApiInfo = ApiInfo(httpMethod: string, apiUrl: string, apiTitle: string, apiName: string)

  /**
   * One way of matching the pattern: the method keyword, then the number of characters
   * taken by the first `\s+` (lead), by the URL group (urlLen), by the `\s+` before the
   * dash (gap) and by the `\s+` after it (pad). The title is the rest of the text.
   */
  datatype Choice = Choice(keyword: string, lead: nat, urlLen: nat, gap: nat, pad: nat)

  /** s[i..j] is all whitespace. */
  predicate SpaceBetween(s: string, i: int, j: int) {
    0 <= i <= j <= |s| && forall k | i <= k < j :: IsSpace(s[k])
  }

  /** s[i..j] holds no line terminator, so `.` matches each of its characters. */
  predicate OnOneLine(s: string, i: int, j: int) {
    0 <= i <= j <= |s| && forall k | i <= k < j :: !IsLineTerminator(s[k])
  }

  /** `\s+-\s+(.*)$` matches s[p..] with gap and pad whitespace characters around the dash. */
  predicate TailMatches(s: string, p: int, gap: int, pad: int) {
    0 <= p && 1 <= gap && 1 <= pad && p + gap + 1 + pad <= |s|
    && SpaceBetween(s, p, p + gap) && s[p + gap] == '-'
    && SpaceBetween(s, p + gap + 1, p + gap + 1 + pad)
    && OnOneLine(s, p + gap + 1 + pad, |s|)
  }

  function UrlStart(c: Choice): nat {
    |c.keyword| + c.lead
  }

  function TitleStart(c: Choice): nat {
    UrlStart(c) + c.urlLen + c.gap + 1 + c.pad
  }

  /** The whole pattern matches s with the counts of c. */
  predicate IsMatch(s: string, c: Choice) {
    c.keyword in Methods && |c.keyword| <= |s| && s[..|c.keyword|] == c.keyword
    && 1 <= c.lead && UrlStart(c) + c.urlLen <= |s|
    && SpaceBetween(s, |c.keyword|, UrlStart(c))
    && OnOneLine(s, UrlStart(c), UrlStart(c) + c.urlLen)
    && TailMatches(s, UrlStart(c) + c.urlLen, c.gap, c.pad)
  }

  /** The backtracking engine tries c' before c (for the same keyword). */
  predicate TriedBefore(c': Choice, c: Choice) {
    c'.lead > c.lead
    || (c'.lead == c.lead && c'.urlLen < c.urlLen)
    || (c'.lead == c.lead && c'.urlLen == c.urlLen && c'.gap > c.gap)
    || (c'.lead == c.lead && c'.urlLen == c.urlLen && c'.gap == c.gap && c'.pad > c.pad)
  }

  /** The first method keyword, in pattern order, that s starts with. */
  function Keyword(s: string): (r: Option<string>)
    ensures r.Some? ==> r.value in Methods && |r.value| <= |s| && s[..|r.value|] == r.value
    ensures r.None? ==> forall kw | kw in Methods :: !(|kw| <= |s| && s[..|kw|] == kw)
  {
    if |s| >= 3 && s[..3] == "GET" then Some("GET")
    else if |s| >= 4 && s[..4] == "POST" then Some("POST")
    else if |s| >= 3 && s[..3] == "PUT" then Some("PUT")
    else if |s| >= 6 && s[..6] == "DELETE" then Some("DELETE")
    else if |s| >= 5 && s[..5] == "PATCH" then Some("PATCH")
    else None
  }

  /** No keyword is a prefix of another, so at most one alternative can start the text. */
  lemma KeywordUnique(s: string, kw: string)
    requires kw in Methods && |kw| <= |s| && s[..|kw|] == kw
    ensures Keyword(s) == Some(kw)
  {
    assert s[0] == kw[0] && s[1] == kw[1] by {
      assert s[..|kw|][0] == s[0] && s[..|kw|][1] == s[1];
    }
  }

  /** Tries the `\s+` after the dash with pad, pad - 1, ..., 1 characters. */
  function FindPad(s: string, p: nat, gap: nat, pad: nat): (r: Option<nat>)
    ensures r.Some? ==> 1 <= r.value <= pad && TailMatches(s, p, gap, r.value)
    ensures r.Some? ==> forall d | r.value < d <= pad :: !TailMatches(s, p, gap, d)
    ensures r.None? ==> forall d | 1 <= d <= pad :: !TailMatches(s, p, gap, d)
    decreases pad
  {
    if pad == 0 then None
    else if TailMatches(s, p, gap, pad) then Some(pad)
    else FindPad(s, p, gap, pad - 1)
  }

  /** Tries the `\s+` before the dash with gap, gap - 1, ..., 1 characters; for each, the longest pad. */
  function FindGap(s: string, p: nat, gap: nat): (r: Option<(nat, nat)>)
    ensures r.Some? ==> 1 <= r.value.0 <= gap && TailMatches(s, p, r.value.0, r.value.1)
    ensures r.Some? ==> forall g, d | TailMatches(s, p, g, d) && g <= gap ::
                          g < r.value.0 || (g == r.value.0 && d <= r.value.1)
    ensures r.None? ==> forall g, d | TailMatches(s, p, g, d) :: g > gap
    decreases gap
  {
    if gap == 0 then None
    else
      var pad := FindPad(s, p, gap, |s|);
      if pad.Some? then Some((gap, pad.value)) else FindGap(s, p, gap - 1)
  }

  /**
   * Tries the lazy URL group from u up to q, q + 1, ..., stopping at a line terminator or at
   * the end of the text; for each end, the first tail in engine order. The result is the
   * URL's end with the tail's gap and pad.
   */
  function FindUrl(s: string, u: nat, q: nat): (r: Option<(nat, nat, nat)>)
    requires u <= q && OnOneLine(s, u, q)
    ensures r.Some? ==> q <= r.value.0 && OnOneLine(s, u, r.value.0)
                        && TailMatches(s, r.value.0, r.value.1, r.value.2)
    ensures r.Some? ==> forall e, g, d | q <= e < r.value.0 :: !TailMatches(s, e, g, d)
    ensures r.Some? ==> forall g, d | TailMatches(s, r.value.0, g, d) ::
                          g < r.value.1 || (g == r.value.1 && d <= r.value.2)
    ensures r.None? ==> forall e, g, d | q <= e && OnOneLine(s, u, e) :: !TailMatches(s, e, g, d)
    decreases |s| - q
  {
    var tail := FindGap(s, q, |s|);
    if tail.Some? then
      Some((q, tail.value.0, tail.value.1))
    else if q < |s| && !IsLineTerminator(s[q]) then
      var r := FindUrl(s, u, q + 1);
      assert r.None? ==> forall e | q < e && OnOneLine(s, u, e) :: OnOneLine(s, u, e - 1);
      r
    else
      None
  }

  /** A lead that is not all whitespace, or after which no URL and tail fit, gives no match. */
  lemma LeadFails(s: string, kw: string, lead: nat)
    requires kw in Methods && |kw| <= |s| && s[..|kw|] == kw
    requires !(|kw| + lead <= |s| && SpaceBetween(s, |kw|, |kw| + lead))
             || FindUrl(s, |kw| + lead, |kw| + lead).None?
    ensures forall c | IsMatch(s, c) && c.keyword == kw :: c.lead != lead
  {
    forall c | IsMatch(s, c) && c.keyword == kw && c.lead == lead ensures false {
    }
  }

  /**
   * What FindUrl promises about its result v for a URL starting at u: the URL s[u..v.0]
   * is on one line and followed by the tail with v.1 and v.2 whitespace characters, no
   * earlier end fits a tail, and no tail at v.0 comes before that one in the engine's order.
   */
  ghost predicate UrlFit(s: string, u: nat, v: (nat, nat, nat)) {
    u <= v.0 && OnOneLine(s, u, v.0) && TailMatches(s, v.0, v.1, v.2)
    && (forall e, g, d | u <= e < v.0 :: !TailMatches(s, e, g, d))
    && (forall g, d | TailMatches(s, v.0, g, d) :: g < v.1 || (g == v.1 && d <= v.2))
  }

  /** After a whitespace lead, the first URL end and tail make a match. */
  lemma LeadSucceeds(s: string, kw: string, lead: nat, v: (nat, nat, nat))
    requires kw in Methods && |kw| <= |s| && s[..|kw|] == kw
    requires 1 <= lead && |kw| + lead <= |s| && SpaceBetween(s, |kw|, |kw| + lead)
    requires UrlFit(s, |kw| + lead, v)
    ensures IsMatch(s, Choice(kw, lead, v.0 - (|kw| + lead), v.1, v.2))
  {
    var m := Choice(kw, lead, v.0 - (|kw| + lead), v.1, v.2);
    assert UrlStart(m) + m.urlLen == v.0;
  }

  /** No match with the same lead is tried before the one LeadSucceeds builds. */
  lemma LeadFirst(s: string, kw: string, lead: nat, v: (nat, nat, nat), c: Choice)
    requires UrlFit(s, |kw| + lead, v)
    requires IsMatch(s, c) && c.keyword == kw && c.lead == lead
    ensures !TriedBefore(c, Choice(kw, lead, v.0 - (|kw| + lead), v.1, v.2))
  {
    var e := UrlStart(c) + c.urlLen;
    assert e == |kw| + lead + c.urlLen;
    assert TailMatches(s, e, c.gap, c.pad);
    if e < v.0 {
      assert false;
    } else if e == v.0 {
      assert c.gap < v.1 || (c.gap == v.1 && c.pad <= v.2);
    }
  }

  /** Tries the first `\s+` with lead, lead - 1, ..., 1 characters; for each, the shortest URL. */
  function FindLead(s: string, kw: string, lead: nat): (r: Option<Choice>)
    requires kw in Methods && |kw| <= |s| && s[..|kw|] == kw
    ensures r.Some? ==> r.value.keyword == kw && r.value.lead <= lead && IsMatch(s, r.value)
    ensures r.Some? ==> forall c | IsMatch(s, c) && c.keyword == kw && c.lead <= lead ::
                          !TriedBefore(c, r.value)
    ensures r.None? ==> forall c | IsMatch(s, c) && c.keyword == kw :: c.lead > lead
    decreases lead
  {
    if lead == 0 then None
    else if |kw| + lead <= |s| && SpaceBetween(s, |kw|, |kw| + lead)
            && FindUrl(s, |kw| + lead, |kw| + lead).Some? then
      var v := FindUrl(s, |kw| + lead, |kw| + lead).value;
      assert UrlFit(s, |kw| + lead, v);
      LeadSucceeds(s, kw, lead, v);
      var m := Choice(kw, lead, v.0 - (|kw| + lead), v.1, v.2);
      forall c | IsMatch(s, c) && c.keyword == kw && c.lead <= lead ensures !TriedBefore(c, m) {
        if c.lead == lead {
          LeadFirst(s, kw, lead, v, c);
        }
      }
      Some(m)
    else
      LeadFails(s, kw, lead);
      FindLead(s, kw, lead - 1)
  }

  /**
   * The regular-expression match of a heading: the first choice of counts, in the order
   * the backtracking engine tries them, that fits the text; none when no choice fits.
   */
  function MatchHeading(s: string): (r: Option<Choice>)
    ensures r.Some? ==> IsMatch(s, r.value)
    ensures r.Some? ==> forall c | IsMatch(s, c) :: c.keyword == r.value.keyword && !TriedBefore(c, r.value)
    ensures r.None? ==> forall c :: !IsMatch(s, c)
  {
    var kw := Keyword(s);
    if kw.None? then None
    else
      forall c | IsMatch(s, c) ensures c.keyword == kw.value {
        KeywordUnique(s, c.keyword);
      }
      FindLead(s, kw.value, |s|)
  }

  /** The engine's match is the only matching choice that no other matching choice precedes. */
  lemma FirstMatchIs(s: string, c: Choice)
    requires IsMatch(s, c)
    requires forall c' | IsMatch(s, c') :: !TriedBefore(c', c)
    ensures MatchHeading(s) == Some(c)
  {
  }

  /** `capitalizeFirstLetter`: the first character upper-cased, the rest kept. */
  function CapitalizeFirstLetter(s: string): (r: string)
    ensures |r| == |s|
    ensures s != [] ==> r[0] == UpperChar(s[0]) && r[1..] == s[1..]
  {
    if s == [] then [] else [UpperChar(s[0])] + s[1..]
  }

  /** The method as the interface name spells it: first letter upper case, the rest lower case. */
  function HttpMethodName(keyword: string): string {
    CapitalizeFirstLetter(ToLower(keyword))
  }

  const HttpMethodNames: set<string> := {"Get", "Post", "Put", "Delete", "Patch"}

  lemma LowerKeywords()
    ensures ToLower("GET") == "get" && ToLower("POST") == "post" && ToLower("PUT") == "put"
    ensures ToLower("DELETE") == "delete" && ToLower("PATCH") == "patch"
  {
    LowerOf("GET", "get");
    LowerOf("POST", "post");
    LowerOf("PUT", "put");
    LowerOf("DELETE", "delete");
    LowerOf("PATCH", "patch");
  }

  /** Each keyword of the pattern gets its own capitalised spelling. */
  lemma MethodNames()
    ensures HttpMethodName("GET") == "Get"
    ensures HttpMethodName("POST") == "Post"
    ensures HttpMethodName("PUT") == "Put"
    ensures HttpMethodName("DELETE") == "Delete"
    ensures HttpMethodName("PATCH") == "Patch"
  {
    LowerKeywords();
  }

  /** Every keyword of the pattern is spelled as one of the five method names. */
  lemma KeywordMethodName(keyword: string)
    requires keyword in Methods
    ensures HttpMethodName(keyword) in HttpMethodNames
  {
    MethodNames();
  }

  /**
   * The URL segment `getApiName` names the API after: the text after the last `/`, or,
   * when that starts with `{`, the segment before it (the empty string when there is none).
   */
  function ApiNameSegment(url: string): (seg: string)
    ensures '/' !in seg
  {
    var names := Split(url, '/');
    var lastName := names[|names| - 1];
    if |lastName| > 0 && lastName[0] == '{' then
      (if |names| >= 2 then names[|names| - 2] else "")
    else
      lastName
  }

  /** `getApiName`: toPascalCase, passed in as `pascal`, applied to the chosen segment. */
  function GetApiName(url: string, pascal: string -> string): string {
    pascal(ApiNameSegment(url))
  }

  /** A URL ending in a plain segment is named after that segment (the empty one after a final `/`). */
  lemma ApiNameOfLastSegment(prefix: string, last: string)
    requires '/' !in last
    requires last == [] || last[0] != '{'
    ensures ApiNameSegment(prefix + "/" + last) == last
  {
    SplitAround(prefix, '/', last);
    SplitWithout(last, '/');
  }

  /**
   * A URL ending in a `{...}` placeholder is named after the segment before it, whether or
   * not more segments come in front (`users/{id}` and `/{id}` as well as `/a/users/{id}`).
   */
  lemma ApiNameOfPlaceholder(prefix: string, segment: string, placeholder: string)
    requires '/' !in segment && '/' !in placeholder
    requires |placeholder| > 0 && placeholder[0] == '{'
    ensures ApiNameSegment(segment + "/" + placeholder) == segment
    ensures ApiNameSegment(prefix + "/" + segment + "/" + placeholder) == segment
  {
    SplitAround(segment, '/', placeholder);
    assert segment + "/" + placeholder == segment + ['/'] + placeholder;
    SplitAround(prefix + "/" + segment, '/', placeholder);
    SplitAround(prefix, '/', segment);
    SplitWithout(segment, '/');
    SplitWithout(placeholder, '/');
    assert prefix + "/" + segment + "/" + placeholder == (prefix + "/" + segment) + ['/'] + placeholder;
    assert prefix + "/" + segment == prefix + ['/'] + segment;
  }

  /** A URL with no `/` is its own segment, unless it is a placeholder. */
  lemma ApiNameWithoutSlash(url: string)
    requires '/' !in url
    ensures ApiNameSegment(url) == if |url| > 0 && url[0] == '{' then "" else url
  {
    SplitWithout(url, '/');
  }

  /**
   * `parseApiInfo`: the groups of the engine's match, the method capitalised and the name
   * derived from the URL; a heading the pattern does not match keeps only its title.
   */
  function ParseApiInfo(text: string, pascal: string -> string): ApiInfo {
    match MatchHeading(text)
    case None => ApiInfo("", "", text, "")
    case Some(c) =>
      var url := text[UrlStart(c)..UrlStart(c) + c.urlLen];
      ApiInfo(HttpMethodName(c.keyword), url, text[TitleStart(c)..], GetApiName(url, pascal))
  }

  /**
   * The method is empty exactly when the pattern does not match, and then the whole text
   * is the title; otherwise the method is one of the five names and the API is named
   * after its URL.
   */
  lemma ParseApiInfoSpec(text: string, pascal: string -> string)
    ensures var r := ParseApiInfo(text, pascal);
            (r.httpMethod == "" <==> forall c :: !IsMatch(text, c))
            && (r.httpMethod == "" ==> r == ApiInfo("", "", text, ""))
            && (r.httpMethod != "" ==> r.httpMethod in HttpMethodNames
                                       && r.apiName == pascal(ApiNameSegment(r.apiUrl)))
  {
    match MatchHeading(text)
    case None =>
    case Some(c) =>
      KeywordMethodName(c.keyword);
  }

  /**
   * On a matching heading the URL and the title are the groups of the first match in the
   * engine's order, so the URL is the shortest one after the longest leading whitespace.
   */
  lemma ParsedGroups(text: string, pascal: string -> string)
    requires ParseApiInfo(text, pascal).httpMethod != ""
    ensures var r := ParseApiInfo(text, pascal);
            exists c | IsMatch(text, c) ::
              r.httpMethod == HttpMethodName(c.keyword)
              && r.apiUrl == text[UrlStart(c)..UrlStart(c) + c.urlLen]
              && r.apiTitle == text[TitleStart(c)..]
              && forall c' | IsMatch(text, c') :: !TriedBefore(c', c)
  {
    ParseApiInfoSpec(text, pascal);
    var c := MatchHeading(text).value;
    assert IsMatch(text, c);
  }

  /** The fields read from a heading once its first match is known. */
  lemma ParsedFrom(text: string, pascal: string -> string, c: Choice)
    requires MatchHeading(text) == Some(c)
    ensures var url := text[UrlStart(c)..UrlStart(c) + c.urlLen];
            ParseApiInfo(text, pascal)
            == ApiInfo(HttpMethodName(c.keyword), url, text[TitleStart(c)..], pascal(ApiNameSegment(url)))
  {
  }

  /** A heading whose first character starts no method keyword matches nothing and is kept as the title. */
  lemma NoKeywordHeading(text: string, pascal: string -> string)
    requires text == [] || text[0] !in {'G', 'P', 'D'}
    ensures ParseApiInfo(text, pascal) == ApiInfo("", "", text, "")
  {
    if text != [] {
      assert forall kw | kw in Methods :: kw[0] in {'G', 'P', 'D'};
      assert forall kw | kw in Methods && |kw| <= |text| :: text[..|kw|][0] == text[0];
    }
    assert Keyword(text).None?;
  }

  /** A heading that does not start with a method keyword is kept whole as the title. */
  lemma BogusHeadingExample(pascal: string -> string)
    ensures ParseApiInfo("bogus text", pascal) == ApiInfo("", "", "bogus text", "")
  {
    NoKeywordHeading("bogus text", pascal);
  }

  /** The heading `<keyword> <url> - <title>` with a single space at each separator. */
  function Heading(keyword: string, url: string, title: string): string {
    keyword + " " + url + " - " + title
  }

  /** Where the parts of a heading sit in its text. */
  lemma HeadingLayout(keyword: string, url: string, title: string)
    ensures var s, n, u := Heading(keyword, url, title), |keyword|, |url|;
            |s| == n + u + 4 + |title| && s[..n] == keyword && s[n] == ' '
            && (forall k | 0 <= k < u :: s[n + 1 + k] == url[k])
            && s[n + 1 + u] == ' ' && s[n + 2 + u] == '-' && s[n + 3 + u] == ' '
            && (forall k | 0 <= k < |title| :: s[n + 4 + k + u] == title[k])
  {
  }

  /** The parts of a heading the search reads as written. */
  predicate PlainParts(keyword: string, url: string, title: string) {
    keyword in Methods
    && url != [] && (forall k | 0 <= k < |url| :: !IsSpace(url[k]))
    && (title == [] || !IsSpace(title[0]))
    && forall k | 0 <= k < |title| :: !IsLineTerminator(title[k])
  }

  lemma PlainHeadingMatches(keyword: string, url: string, title: string)
    requires PlainParts(keyword, url, title)
    ensures IsMatch(Heading(keyword, url, title), Choice(keyword, 1, |url|, 1, 1))
  {
    HeadingLayout(keyword, url, title);
    var s, n, u := Heading(keyword, url, title), |keyword|, |url|;
    assert OnOneLine(s, n + 1, n + 1 + u);
    assert OnOneLine(s, n + 4 + u, |s|);
  }

  /** A match of a plain heading takes exactly one space before the URL. */
  lemma PlainLead(keyword: string, url: string, title: string, c': Choice)
    requires PlainParts(keyword, url, title)
    requires IsMatch(Heading(keyword, url, title), c') && c'.keyword == keyword
    ensures c'.lead == 1
  {
    HeadingLayout(keyword, url, title);
    var s, n := Heading(keyword, url, title), |keyword|;
    assert !IsSpace(s[n + 1]);
  }

  /** No dash separator of a plain heading starts inside its URL. */
  lemma PlainUrl(keyword: string, url: string, title: string, p: int, g: int, d: int)
    requires PlainParts(keyword, url, title)
    requires |keyword| + 1 <= p && TailMatches(Heading(keyword, url, title), p, g, d)
    ensures p >= |keyword| + 1 + |url|
  {
    HeadingLayout(keyword, url, title);
    assert IsSpace(Heading(keyword, url, title)[p]);
  }

  /** After the whole URL, the separator of a plain heading is one space, the dash and one space. */
  lemma PlainTail(keyword: string, url: string, title: string, g: int, d: int)
    requires PlainParts(keyword, url, title)
    requires TailMatches(Heading(keyword, url, title), |keyword| + 1 + |url|, g, d)
    ensures g == 1 && d == 1
  {
    HeadingLayout(keyword, url, title);
    var s, n, u := Heading(keyword, url, title), |keyword|, |url|;
    assert !IsSpace(s[n + 2 + u]);
    assert |title| > 0 ==> !IsSpace(s[n + 4 + u]);
  }

  /** No other match of a plain heading comes before the one with single spaces. */
  lemma PlainHeadingFirst(keyword: string, url: string, title: string, c': Choice)
    requires PlainParts(keyword, url, title)
    requires IsMatch(Heading(keyword, url, title), c')
    ensures !TriedBefore(c', Choice(keyword, 1, |url|, 1, 1))
  {
    var s := Heading(keyword, url, title);
    assert s[..|keyword|] == keyword;
    KeywordUnique(s, keyword);
    KeywordUnique(s, c'.keyword);
    PlainLead(keyword, url, title, c');
    PlainUrl(keyword, url, title, UrlStart(c') + c'.urlLen, c'.gap, c'.pad);
    if c'.urlLen == |url| {
      PlainTail(keyword, url, title, c'.gap, c'.pad);
    }
  }

  /**
   * A heading with a whitespace-free URL and a one-line title that does not start with
   * whitespace is matched with one space at each separator, the whole URL as the URL
   * group and the whole title as the title group, even when the title holds ` - ` itself.
   */
  lemma HeadingMatch(keyword: string, url: string, title: string)
    requires PlainParts(keyword, url, title)
    ensures MatchHeading(Heading(keyword, url, title)) == Some(Choice(keyword, 1, |url|, 1, 1))
  {
    var s := Heading(keyword, url, title);
    var c := Choice(keyword, 1, |url|, 1, 1);
    PlainHeadingMatches(keyword, url, title);
    forall c' | IsMatch(s, c') ensures !TriedBefore(c', c) {
      PlainHeadingFirst(keyword, url, title, c');
    }
    FirstMatchIs(s, c);
  }

  lemma HeadingGroups(keyword: string, url: string, title: string)
    ensures var s, n, u := Heading(keyword, url, title), |keyword|, |url|;
            s[n + 1..n + 1 + u] == url && s[n + 4 + u..] == title
  {
    HeadingLayout(keyword, url, title);
  }

  /** Such a heading yields its keyword's method name, its URL, its title and the URL's name. */
  lemma HeadingInfo(keyword: string, url: string, title: string, pascal: string -> string)
    requires PlainParts(keyword, url, title)
    ensures ParseApiInfo(Heading(keyword, url, title), pascal)
            == ApiInfo(HttpMethodName(keyword), url, title, pascal(ApiNameSegment(url)))
  {
    HeadingMatch(keyword, url, title);
    HeadingGroups(keyword, url, title);
    ParsedFrom(Heading(keyword, url, title), pascal, Choice(keyword, 1, |url|, 1, 1));
  }

  lemma PlaceholderName()
    ensures ApiNameSegment("/foo/{id}") == "foo"
  {
    ApiNameOfPlaceholder("", "foo", "{id}");
    assert "" + "/" + "foo" + "/" + "{id}" == "/foo/{id}";
  }

  lemma PlaceholderParts()
    ensures PlainParts("GET", "/foo/{id}", "Get Foo")
  {
  }

  lemma PlaceholderHeadingExample(pascal: string -> string)
    ensures ParseApiInfo(Heading("GET", "/foo/{id}", "Get Foo"), pascal)
            == ApiInfo("Get", "/foo/{id}", "Get Foo", pascal("foo"))
  {
    PlaceholderParts();
    PlaceholderName();
    MethodNames();
    HeadingInfo("GET", "/foo/{id}", "Get Foo", pascal);
  }

  /** The URL group is lazy: the first ` - ` ends it and later ones stay in the title. */
  lemma ShortestUrlExample(pascal: string -> string)
    ensures ParseApiInfo(Heading("POST", "/a", "b - c"), pascal) == ApiInfo("Post", "/a", "b - c", pascal("a"))
  {
    HeadingInfo("POST", "/a", "b - c", pascal);
    MethodNames();
    ApiNameOfLastSegment("", "a");
    assert "" + "/" + "a" == "/a";
  }

  lemma UsersName()
    ensures ApiNameSegment("/users") == "users"
  {
    ApiNameOfLastSegment("", "users");
    assert "" + "/" + "users" == "/users";
  }

  lemma UsersParts()
    ensures PlainParts("POST", "/users", "Create User")
  {
  }

  /** A create endpoint: the method, the URL, the title and the name of the last segment. */
  lemma UsersHeadingExample(pascal: string -> string)
    ensures ParseApiInfo(Heading("POST", "/users", "Create User"), pascal)
            == ApiInfo("Post", "/users", "Create User", pascal("users"))
  {
    UsersParts();
    UsersName();
    MethodNames();
    HeadingInfo("POST", "/users", "Create User", pascal);
  }
}
