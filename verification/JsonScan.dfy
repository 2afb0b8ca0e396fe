/** Recovering a JSON object from model output: the scanner returns the shortest slice from the first
    '{' at which the brace depth outside strings is back to zero, and that slice is exactly the object
    whenever the text is an RFC 8259 object between anything without '{' and anything at all. */
module JsonScan {
  import opened Basics

  /** What the scanner knows: brace depth outside strings, inside a string, after a backslash. */
  datatype Scan = Scan(depth: int, inStr: bool, escape: bool)

  /** _scan_in_string */
  function ScanInString(ch: char, escape: bool): (bool, bool) {
    if escape then (true, false)
    else if ch == '\\' then (true, true)
    else if ch == '"' then (false, false)
    else (true, false)
  }

  function Step(st: Scan, ch: char): Scan {
    if st.inStr then
      var (inStr, escape) := ScanInString(ch, st.escape);
      Scan(st.depth, inStr, escape)
    else if ch == '"' then st.(inStr := true)
    else if ch == '{' then st.(depth := st.depth + 1)
    else if ch == '}' then st.(depth := st.depth - 1)
    else st
  }

  function Feed(st: Scan, text: string): Scan {
    if text == "" then st else Step(Feed(st, text[..|text| - 1]), text[|text| - 1])
  }

  const START: Scan := Scan(0, false, false)

  predicate FirstBrace(s: string, start: nat) {
    start < |s| && s[start] == '{' && forall i :: 0 <= i < start ==> s[i] != '{'
  }

  /** The slice ends where the depth outside strings is zero again. */
  predicate Balanced(s: string, start: nat, end: nat) {
    start < end <= |s| && Feed(START, s[start..end]).depth == 0
  }

  /** extract_first_json_object */
  method ExtractFirstObject(s: string) returns (r: Option<string>)
    ensures r.Some? ==> exists start: nat, end: nat ::
              && FirstBrace(s, start) && Balanced(s, start, end)
              && (forall k: nat :: k < end ==> !Balanced(s, start, k))
              && r.value == s[start..end]
    ensures r.None? ==> forall start: nat, end: nat :: FirstBrace(s, start) ==> !Balanced(s, start, end)
  {
    var start := 0;
    while start < |s| && s[start] != '{'
      invariant start <= |s| && forall i :: 0 <= i < start ==> s[i] != '{'
    {
      start := start + 1;
    }
    if start == |s| { return None; }
    var depth, inStr, escape := 0, false, false;
    for i := start to |s|
      invariant Scan(depth, inStr, escape) == Feed(START, s[start..i])
      invariant if i == start then depth == 0 && !inStr else depth >= 1
      invariant forall k: nat :: k <= i ==> !Balanced(s, start, k)
    {
      var ch := s[i];
      assert s[start..i + 1][..i - start] == s[start..i];
      assert s[start..i + 1][i - start] == ch;
      if inStr {
        var (inStr', escape') := ScanInString(ch, escape);
        inStr, escape := inStr', escape';
      } else if ch == '"' {
        inStr := true;
      } else if ch == '{' {
        depth := depth + 1;
      } else if ch == '}' {
        depth := depth - 1;
        if depth == 0 {
          assert Balanced(s, start, i + 1);
          return Some(s[start..i + 1]);
        }
      }
    }
    return None;
  }

  // ----- RFC 8259 texts, with any insignificant whitespace -----

  /** One character of a string literal (section 7). */
  datatype StrItem = Plain(c: char) | Escaped(c: char) | Hex(a: char, b: char, c: char, d: char)

  /** A JSON value with its layout (sections 2 to 7): `ws` is the whitespace inside an empty array or
      object, `pre` and `post` that around an element or a member's parts. */
  datatype Json =
    | Null | True | False
    | Number(lexeme: string)
    | Str(items: seq<StrItem>)
    | Arr(ws: string, elems: Elems)
    | Obj(ws: string, members: Members)

  datatype Elems = NoElem | Elem(pre: string, value: Json, post: string, rest: Elems)

  datatype Members =
    | NoMember
    | Member(pre: string, name: seq<StrItem>, mid: string, gap: string, value: Json, post: string, rest: Members)

  predicate Space(s: string) {
    forall i :: 0 <= i < |s| ==> s[i] in " \t\n\r"
  }

  predicate ItemOk(item: StrItem) {
    match item
    case Plain(c) => c != '"' && c != '\\' && c >= ' '
    case Escaped(c) => c in "\"\\/bfnrt"
    case Hex(a, b, c, d) => a in HEX && b in HEX && c in HEX && d in HEX
  }

  const HEX: string := "0123456789abcdefABCDEF"
  const NUMERIC: string := "0123456789+-.eE"

  predicate ItemsOk(items: seq<StrItem>) {
    forall i :: 0 <= i < |items| ==> ItemOk(items[i])
  }

  predicate Ok(v: Json) {
    match v
    case Number(lexeme) => forall i :: 0 <= i < |lexeme| ==> lexeme[i] in NUMERIC
    case Str(items) => ItemsOk(items)
    case Arr(ws, elems) => Space(ws) && ElemsOk(elems)
    case Obj(ws, members) => Space(ws) && MembersOk(members)
    case _ => true
  }

  predicate ElemsOk(e: Elems) {
    match e
    case NoElem => true
    case Elem(pre, v, post, rest) => Space(pre) && Ok(v) && Space(post) && ElemsOk(rest)
  }

  predicate MembersOk(m: Members) {
    match m
    case NoMember => true
    case Member(pre, name, mid, gap, v, post, rest) =>
      Space(pre) && ItemsOk(name) && Space(mid) && Space(gap) && Ok(v) && Space(post) && MembersOk(rest)
  }

  function PrintItem(item: StrItem): string {
    match item
    case Plain(c) => [c]
    case Escaped(c) => ['\\', c]
    case Hex(a, b, c, d) => ['\\', 'u', a, b, c, d]
  }

  function PrintItems(items: seq<StrItem>): string {
    if items == [] then "" else PrintItems(items[..|items| - 1]) + PrintItem(items[|items| - 1])
  }

  function PrintString(items: seq<StrItem>): string {
    ['"'] + PrintItems(items) + ['"']
  }

  function Print(v: Json): string {
    match v
    case Null => "null"
    case True => "true"
    case False => "false"
    case Number(lexeme) => lexeme
    case Str(items) => PrintString(items)
    case Arr(ws, elems) => ['['] + ws + PrintElems(elems) + [']']
    case Obj(ws, members) => ['{'] + (ws + PrintMembers(members)) + ['}']
  }

  function PrintElems(e: Elems): string {
    match e
    case NoElem => ""
    case Elem(pre, v, post, rest) => pre + Print(v) + post + (if rest.NoElem? then "" else [',']) + PrintElems(rest)
  }

  function PrintMembers(m: Members): string {
    match m
    case NoMember => ""
    case Member(pre, name, mid, gap, v, post, rest) =>
      pre + PrintString(name) + mid + [':'] + gap + Print(v) + post + (if rest.NoMember? then "" else [','])
          + PrintMembers(rest)
  }

  // ----- a printed value leaves the scanner where it was -----

  /** Scanning `text` never goes below the depth it started at, and ends where it started. */
  ghost predicate Stays(st: Scan, text: string) {
    && Feed(st, text) == st
    && forall k :: 0 <= k <= |text| ==> Feed(st, text[..k]).depth >= st.depth
  }

  lemma {:induction false} FeedConcat(st: Scan, p: string, q: string)
    ensures Feed(st, p + q) == Feed(Feed(st, p), q)
    decreases |q|
  {
    if q == "" {
      assert p + q == p;
    } else {
      FeedConcat(st, p, q[..|q| - 1]);
      assert (p + q)[..|p + q| - 1] == p + q[..|q| - 1];
    }
  }

  lemma StaysConcat(st: Scan, p: string, q: string)
    requires Stays(st, p) && Stays(st, q)
    ensures Stays(st, p + q)
  {
    FeedConcat(st, p, q);
    forall k | 0 <= k <= |p + q|
      ensures Feed(st, (p + q)[..k]).depth >= st.depth
    {
      if k <= |p| {
        assert (p + q)[..k] == p[..k];
      } else {
        assert (p + q)[..k] == p + q[..k - |p|];
        FeedConcat(st, p, q[..k - |p|]);
      }
    }
  }

  predicate Neutral(c: char) {
    c != '"' && c != '{' && c != '}'
  }

  /** Outside strings, text without quotes and braces changes nothing. */
  lemma {:induction false} NeutralStays(st: Scan, text: string)
    requires !st.inStr && forall i :: 0 <= i < |text| ==> Neutral(text[i])
    ensures Stays(st, text)
    decreases |text|
  {
    if text != "" {
      var n := |text| - 1;
      NeutralStays(st, text[..n]);
      forall k | 0 <= k <= |text|
        ensures Feed(st, text[..k]).depth >= st.depth
      {
        if k <= n { assert text[..n][..k] == text[..k]; } else { assert text[..k] == text; }
      }
    }
  }

  /** Inside a string, one item of it changes nothing. */
  lemma ItemStays(st: Scan, item: StrItem)
    requires st.inStr && !st.escape && ItemOk(item)
    ensures Stays(st, PrintItem(item))
  {
    match item
    case Plain(c) => InStringStays(st, [c]);
    case Escaped(c) => EscapeStays(st, c);
    case Hex(a, b, c, d) => HexStays(st, a, b, c, d);
  }

  lemma HexDigit(c: char)
    requires c in HEX
    ensures c != '"' && c != '\\'
  {
    assert '"' !in HEX;
    assert '\\' !in HEX;
  }

  lemma HexStays(st: Scan, a: char, b: char, c: char, d: char)
    requires st.inStr && !st.escape && a in HEX && b in HEX && c in HEX && d in HEX
    ensures Stays(st, ['\\', 'u', a, b, c, d])
  {
    HexDigit(a);
    HexDigit(b);
    HexDigit(c);
    HexDigit(d);
    EscapeStays(st, 'u');
    InStringStays(st, [a, b, c, d]);
    StaysConcat(st, ['\\', 'u'], [a, b, c, d]);
    assert ['\\', 'u', a, b, c, d] == ['\\', 'u'] + [a, b, c, d];
  }

  /** A backslash and whatever it escapes. */
  lemma EscapeStays(st: Scan, c: char)
    requires st.inStr && !st.escape
    ensures Stays(st, ['\\', c])
  {
    var t := ['\\', c];
    assert t[..2] == t && t[..1] == ['\\'] && t[..0] == "" && ['\\'][..0] == "";
    assert Feed(st, ['\\']) == st.(escape := true);
  }

  lemma {:induction false} InStringStays(st: Scan, text: string)
    requires st.inStr && !st.escape && forall i :: 0 <= i < |text| ==> text[i] != '"' && text[i] != '\\'
    ensures Stays(st, text)
    decreases |text|
  {
    if text != "" {
      var n := |text| - 1;
      InStringStays(st, text[..n]);
      forall k | 0 <= k <= |text|
        ensures Feed(st, text[..k]).depth >= st.depth
      {
        if k <= n { assert text[..n][..k] == text[..k]; } else { assert text[..k] == text; }
      }
    }
  }

  lemma {:induction false} ItemsStay(st: Scan, items: seq<StrItem>)
    requires st.inStr && !st.escape && ItemsOk(items)
    ensures Stays(st, PrintItems(items))
    decreases |items|
  {
    if items == [] {
    } else {
      ItemsStay(st, items[..|items| - 1]);
      ItemStays(st, items[|items| - 1]);
      StaysConcat(st, PrintItems(items[..|items| - 1]), PrintItem(items[|items| - 1]));
    }
  }

  /** A bracketed text: `open` leads to `mid`, the inside stays there, `close` leads back. */
  lemma Bracketed(st: Scan, mid: Scan, open: char, inside: string, close: char)
    requires Step(st, open) == mid && mid.depth >= st.depth && Stays(mid, inside) && Step(mid, close) == st
    ensures Stays(st, [open] + inside + [close])
    ensures forall k :: 0 < k < |inside| + 2 ==> Feed(st, ([open] + inside + [close])[..k]).depth >= mid.depth
  {
    var t := [open] + inside + [close];
    assert [open][..0] == "" && Feed(st, [open]) == mid;
    forall k | 0 < k < |t|
      ensures Feed(st, t[..k]).depth >= mid.depth
    {
      assert t[..k] == [open] + inside[..k - 1];
      FeedConcat(st, [open], inside[..k - 1]);
    }
    assert t[..|t| - 1] == [open] + inside[..|inside|] && inside[..|inside|] == inside;
    FeedConcat(st, [open], inside);
    assert t[..|t|] == t && t[..0] == "";
  }

  lemma StringStays(st: Scan, items: seq<StrItem>)
    requires !st.inStr && !st.escape && ItemsOk(items)
    ensures Stays(st, PrintString(items))
  {
    var mid := st.(inStr := true);
    ItemsStay(mid, items);
    Bracketed(st, mid, '"', PrintItems(items), '"');
  }

  lemma {:induction false} ValueStays(st: Scan, v: Json)
    requires !st.inStr && !st.escape && Ok(v)
    ensures Stays(st, Print(v))
    decreases v
  {
    match v
    case Str(items) => StringStays(st, items);
    case Arr(ws, elems) =>
      ElemsStay(st, elems);
      NeutralStays(st, ['['] + ws);
      NeutralStays(st, [']']);
      StaysThree(st, ['['] + ws, PrintElems(elems), [']']);
    case Obj(ws, members) =>
      var mid := st.(depth := st.depth + 1);
      InsideStays(mid, ws, members);
      Bracketed(st, mid, '{', ws + PrintMembers(members), '}');
    case Null => NeutralStays(st, "null");
    case True => NeutralStays(st, "true");
    case False => NeutralStays(st, "false");
    case Number(lexeme) => NumberStays(st, lexeme);
  }

  lemma NumberStays(st: Scan, lexeme: string)
    requires !st.inStr && forall i :: 0 <= i < |lexeme| ==> lexeme[i] in NUMERIC
    ensures Stays(st, lexeme)
  {
    assert !('"' in NUMERIC) && !('{' in NUMERIC) && !('}' in NUMERIC);
    NeutralStays(st, lexeme);
  }

  lemma StaysThree(st: Scan, p: string, q: string, r: string)
    requires Stays(st, p) && Stays(st, q) && Stays(st, r)
    ensures Stays(st, p + q + r)
  {
    StaysConcat(st, p, q);
    StaysConcat(st, p + q, r);
  }

  lemma {:induction false} InsideStays(st: Scan, ws: string, members: Members)
    requires !st.inStr && !st.escape && Space(ws) && MembersOk(members)
    ensures Stays(st, ws + PrintMembers(members))
    decreases members, 1
  {
    NeutralStays(st, ws);
    MembersStay(st, members);
    StaysConcat(st, ws, PrintMembers(members));
  }

  lemma {:induction false} ElemsStay(st: Scan, e: Elems)
    requires !st.inStr && !st.escape && ElemsOk(e)
    ensures Stays(st, PrintElems(e))
    decreases e
  {
    match e
    case NoElem =>
    case Elem(pre, v, post, rest) =>
      var comma := if rest.NoElem? then "" else [','];
      NeutralStays(st, pre);
      ValueStays(st, v);
      NeutralStays(st, post);
      NeutralStays(st, comma);
      ElemsStay(st, rest);
      StaysThree(st, pre, Print(v), post);
      StaysThree(st, pre + Print(v) + post, comma, PrintElems(rest));
  }

  lemma {:induction false} MembersStay(st: Scan, m: Members)
    requires !st.inStr && !st.escape && MembersOk(m)
    ensures Stays(st, PrintMembers(m))
    decreases m, 0
  {
    match m
    case NoMember =>
    case Member(pre, name, mid, gap, v, post, rest) =>
      var comma := if rest.NoMember? then "" else [','];
      var head := pre + PrintString(name) + mid;
      NameStays(st, pre, name, mid);
      NeutralStays(st, [':']);
      NeutralStays(st, gap);
      ValueStays(st, v);
      NeutralStays(st, post);
      NeutralStays(st, comma);
      MembersStay(st, rest);
      StaysThree(st, head, [':'], gap);
      StaysThree(st, head + [':'] + gap, Print(v), post);
      StaysThree(st, head + [':'] + gap + Print(v) + post, comma, PrintMembers(rest));
  }

  lemma NameStays(st: Scan, pre: string, name: seq<StrItem>, mid: string)
    requires !st.inStr && !st.escape && Space(pre) && ItemsOk(name) && Space(mid)
    ensures Stays(st, pre + PrintString(name) + mid)
  {
    NeutralStays(st, pre);
    StringStays(st, name);
    NeutralStays(st, mid);
    StaysThree(st, pre, PrintString(name), mid);
  }

  // ----- the round trip -----

  /** The object's own end is the first place where the scan of the whole text balances. */
  lemma ObjectEndsWhereItBalances(before: string, v: Json, after: string)
    requires v.Obj? && Ok(v) && '{' !in before
    ensures var s := before + Print(v) + after;
            && FirstBrace(s, |before|) && Balanced(s, |before|, |before| + |Print(v)|)
            && (forall k: nat :: k < |before| + |Print(v)| ==> !Balanced(s, |before|, k))
            && s[|before|..|before| + |Print(v)|] == Print(v)
  {
    var t := Print(v);
    var s := before + t + after;
    var mid := Scan(1, false, false);
    InsideStays(mid, v.ws, v.members);
    Bracketed(START, mid, '{', v.ws + PrintMembers(v.members), '}');
    assert s[|before|..|before| + |t|] == t;
    assert s[|before|] == t[0] == '{';
    forall i | 0 <= i < |before|
      ensures s[i] != '{'
    {
      assert s[i] == before[i];
      assert before[i] in before;
    }
    forall k: nat | k < |before| + |t|
      ensures !Balanced(s, |before|, k)
    {
      if |before| < k {
        assert s[|before|..k] == t[..k - |before|];
      }
    }
  }

  /** Main result: whatever follows it, and whatever precedes it without a '{', the scanner returns
      exactly the printed object. */
  method RoundTrip(before: string, v: Json, after: string) returns (r: Option<string>)
    requires v.Obj? && Ok(v) && '{' !in before
    ensures r == Some(Print(v))
  {
    r := ExtractFirstObject(before + Print(v) + after);
    ObjectEndsWhereItBalances(before, v, after);
    OneSlice(before + Print(v) + after, |before|, |before| + |Print(v)|);
  }

  /** At most one slice starts at the first brace and ends at its first balance. */
  lemma OneSlice(s: string, start: nat, end: nat)
    requires FirstBrace(s, start) && Balanced(s, start, end) && forall k: nat :: k < end ==> !Balanced(s, start, k)
    ensures forall b: nat, e: nat ::
              FirstBrace(s, b) && Balanced(s, b, e) && (forall k: nat :: k < e ==> !Balanced(s, b, k)) ==>
              b == start && e == end
  {
    forall b: nat, e: nat | FirstBrace(s, b) && Balanced(s, b, e) && (forall k: nat :: k < e ==> !Balanced(s, b, k))
      ensures b == start && e == end
    {
      assert b == start;
      assert !(e < end) && !(end < e);
    }
  }
}
