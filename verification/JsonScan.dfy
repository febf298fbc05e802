/** Finding a JSON structure inside a model's reply (validator/model_client.py and
    miner/reference/template.py), against the JSON grammar of RFC 8259. */
module JsonScan {
  import opened Wrappers

  // ---------------------------------------------------------------- the scanner

  /** Where the scan of one candidate stands. */
  datatype Scan = Seeking(depth: int, inString: bool, escaped: bool) | Closed

  const START := Seeking(0, false, false)

  function Step(st: Scan, c: char, opener: char, closer: char): Scan {
    if st.Closed? then Closed
    else if st.escaped then st.(escaped := false)
    else if c == '\\' then st.(escaped := true)
    else if c == '"' then st.(inString := !st.inString)
    else if st.inString then st
    else if c == opener then st.(depth := st.depth + 1)
    else if c == closer then
      if st.depth - 1 == 0 then Closed else st.(depth := st.depth - 1)
    else st
  }

  function ScanAll(st: Scan, text: string, opener: char, closer: char): Scan
    decreases text
  {
    if text == "" then st else ScanAll(Step(st, text[0], opener, closer), text[1..], opener, closer)
  }

  /** How many characters it takes to close, if the text does close. */
  function Closing(st: Scan, text: string, opener: char, closer: char): (count: Option<nat>)
    ensures count.Some? ==> 0 < count.value <= |text|
    decreases text
  {
    if text == "" then None
    else
      var next := Step(st, text[0], opener, closer);
      if next.Closed? then Some(1)
      else
        match Closing(next, text[1..], opener, closer)
        case None => None
        case Some(n) => Some(n + 1)
  }

  function Find(text: string, c: char): (at: Option<nat>)
    ensures at.Some? ==> at.value < |text| && text[at.value] == c && c !in text[..at.value]
    ensures at.None? ==> c !in text
  {
    if text == "" then None
    else if text[0] == c then Some(0)
    else
      match Find(text[1..], c)
      case None => None
      case Some(n) => assert text[..n + 1] == [text[0]] + text[1..][..n]; Some(n + 1)
  }

  /** The span from the first opener to the character that balances it. */
  function FirstSpan(text: string, opener: char, closer: char): Option<string> {
    match Find(text, opener)
    case None => None
    case Some(start) =>
      match Closing(START, text[start..], opener, closer)
      case None => None
      case Some(n) => Some(text[start..start + n])
  }

  /** Objects are tried before arrays, wherever they stand. */
  function FirstStructure(text: string): Option<string> {
    var span := FirstSpan(text, '{', '}');
    if span.Some? then span else FirstSpan(text, '[', ']')
  }

  lemma {:induction false} ScanSplit(st: Scan, a: string, b: string, opener: char, closer: char)
    ensures ScanAll(st, a + b, opener, closer) == ScanAll(ScanAll(st, a, opener, closer), b, opener, closer)
    decreases a
  {
    if a == "" {
      assert a + b == b;
    } else {
      assert (a + b)[1..] == a[1..] + b;
      ScanSplit(Step(st, a[0], opener, closer), a[1..], b, opener, closer);
    }
  }

  lemma {:induction false} ClosedStaysClosed(text: string, opener: char, closer: char)
    ensures ScanAll(Closed, text, opener, closer) == Closed
  {
    if text != "" {
      ClosedStaysClosed(text[1..], opener, closer);
    }
  }

  /** A part that is scanned through without closing only adds its length. */
  lemma {:induction false} ClosingSkips(st: Scan, part: string, rest: string, opener: char, closer: char)
    requires st.Seeking? && ScanAll(st, part, opener, closer).Seeking?
    ensures var after := Closing(ScanAll(st, part, opener, closer), rest, opener, closer);
            Closing(st, part + rest, opener, closer) == if after.None? then None else Some(|part| + after.value)
    decreases part
  {
    if part == "" {
      assert part + rest == rest;
    } else {
      var next := Step(st, part[0], opener, closer);
      assert (part + rest)[1..] == part[1..] + rest;
      if next.Closed? {
        ClosedStaysClosed(part[1..], opener, closer);
      } else {
        ClosingSkips(next, part[1..], rest, opener, closer);
      }
    }
  }

  /** The count is where the scan first closes. */
  lemma {:induction false} ClosingIsFirst(st: Scan, text: string, opener: char, closer: char, k: nat)
    requires st.Seeking? && k <= |text|
    ensures var count := Closing(st, text, opener, closer);
            ScanAll(st, text[..k], opener, closer).Closed? <==> count.Some? && count.value <= k
    decreases text
  {
    if k > 0 {
      var next := Step(st, text[0], opener, closer);
      assert text[..k][1..] == text[1..][..k - 1];
      if next.Closed? {
        ClosedStaysClosed(text[1..][..k - 1], opener, closer);
      } else {
        ClosingIsFirst(next, text[1..], opener, closer, k - 1);
      }
    }
  }

  /** What is found opens with the first opener, and is the shortest text from there that closes. */
  lemma SpanIsShortest(text: string, opener: char, closer: char, k: nat)
    requires FirstSpan(text, opener, closer).Some?
    requires k < |FirstSpan(text, opener, closer).value|
    ensures var span := FirstSpan(text, opener, closer).value;
            && ScanAll(START, span, opener, closer).Closed?
            && !ScanAll(START, span[..k], opener, closer).Closed?
            && exists start :: 0 <= start <= start + |span| <= |text| && opener !in text[..start]
                               && text[start..start + |span|] == span && span[0] == opener
  {
    var start := Find(text, opener).value;
    var tail := text[start..];
    var n := Closing(START, tail, opener, closer).value;
    ClosingIsFirst(START, tail, opener, closer, n);
    ClosingIsFirst(START, tail, opener, closer, k);
    assert text[start..start + n] == tail[..n] && tail[..n][..k] == tail[..k];
    assert text[start..start + n][0] == text[start];
  }

  // ---------------------------------------------------------------- the two loops

  /** One pass over the text from `start`, as both programs write it. */
  method ScanFrom(text: string, start: nat, opener: char, closer: char) returns (span: Option<string>)
    requires start < |text|
    ensures span == match Closing(START, text[start..], opener, closer)
                    case None => None
                    case Some(n) => Some(text[start..start + n])
  {
    var depth, inString, escaped := 0, false, false;
    assert text[start..start] == "";
    for index := start to |text|
      invariant ScanAll(START, text[start..index], opener, closer) == Seeking(depth, inString, escaped)
      invariant start <= index
    {
      var c := text[index];
      assert Step(Seeking(depth, inString, escaped), c, opener, closer) ==
             ScanAll(START, text[start..index + 1], opener, closer) by {
        OneMoreChar(text, start, index, opener, closer);
      }
      if escaped {
        escaped := false;
      } else if c == '\\' {
        escaped := true;
      } else if c == '"' {
        inString := !inString;
      } else if !inString {
        if c == opener {
          depth := depth + 1;
        } else if c == closer {
          depth := depth - 1;
          if depth == 0 {
            ClosesHere(text, start, index, opener, closer);
            return Some(text[start..index + 1]);
          }
        }
      }
    }
    NeverCloses(text, start, opener, closer);
    return None;
  }

  lemma OneMoreChar(text: string, start: nat, index: nat, opener: char, closer: char)
    requires start <= index < |text|
    ensures ScanAll(START, text[start..index + 1], opener, closer)
            == Step(ScanAll(START, text[start..index], opener, closer), text[index], opener, closer)
  {
    assert text[start..index + 1] == text[start..index] + [text[index]];
    ScanSplit(START, text[start..index], [text[index]], opener, closer);
    assert [text[index]][1..] == "";
  }

  lemma ClosesHere(text: string, start: nat, index: nat, opener: char, closer: char)
    requires start <= index < |text|
    requires ScanAll(START, text[start..index], opener, closer).Seeking?
    requires ScanAll(START, text[start..index + 1], opener, closer).Closed?
    ensures Closing(START, text[start..], opener, closer) == Some(index + 1 - start)
  {
    var tail, k := text[start..], index - start;
    assert tail[..k] == text[start..index] && tail[..k + 1] == text[start..index + 1];
    ClosingIsFirst(START, tail, opener, closer, k);
    ClosingIsFirst(START, tail, opener, closer, k + 1);
  }

  lemma NeverCloses(text: string, start: nat, opener: char, closer: char)
    requires start <= |text| && ScanAll(START, text[start..|text|], opener, closer).Seeking?
    ensures Closing(START, text[start..], opener, closer) == None
  {
    assert text[start..][..|text| - start] == text[start..|text|];
    ClosingIsFirst(START, text[start..], opener, closer, |text| - start);
  }

  method FindFirstStructure(text: string) returns (span: Option<string>)
    ensures span == FirstStructure(text)
  {
    var pairs := [('{', '}'), ('[', ']')];
    for k := 0 to |pairs|
      invariant k >= 1 ==> FirstSpan(text, '{', '}').None?
      invariant k >= 2 ==> FirstSpan(text, '[', ']').None?
    {
      var (opener, closer) := pairs[k];
      var start := Find(text, opener);
      if start.Some? {
        span := ScanFrom(text, start.value, opener, closer);
        if span.Some? {
          return;
        }
      }
    }
    return None;
  }

  /** The portfolio parser's own copy of the scan, for objects only. */
  method PortfolioSpan(text: string) returns (span: Option<string>)
    ensures span == FirstSpan(text, '{', '}')
    ensures span.Some? ==> FirstStructure(text) == span
  {
    var start := Find(text, '{');
    if start.None? {
      return None;
    }
    span := ScanFrom(text, start.value, '{', '}');
  }

  // ---------------------------------------------------------------- the grammar

  /** One character of a string: written plainly, after a backslash, or as four hex digits. */
  datatype StringChar = Plain(c: char) | Escaped(c: char) | Coded(a: char, b: char, c: char, d: char)

  predicate IsHex(c: char) {
    '0' <= c <= '9' || 'a' <= c <= 'f' || 'A' <= c <= 'F'
  }

  predicate WellFormedChar(x: StringChar) {
    match x
    case Plain(c) => c as int >= 0x20 && c != '"' && c != '\\'
    case Escaped(c) => c in "\"\\/bfnrt"
    case Coded(a, b, c, d) => IsHex(a) && IsHex(b) && IsHex(c) && IsHex(d)
  }

  function RenderChar(x: StringChar): string {
    match x
    case Plain(c) => [c]
    case Escaped(c) => ['\\', c]
    case Coded(a, b, c, d) => ['\\', 'u', a, b, c, d]
  }

  function RenderChars(xs: seq<StringChar>): string {
    if xs == [] then "" else RenderChar(xs[0]) + RenderChars(xs[1..])
  }

  /** Digits; an optional fraction and exponent have at least one. */
  datatype Number = Number(minus: bool, whole: string, fraction: Option<string>,
                           exponent: Option<(char, string, string)>)

  predicate Digits(s: string) {
    s != "" && forall i :: 0 <= i < |s| ==> '0' <= s[i] <= '9'
  }

  predicate WellFormedNumber(n: Number) {
    && Digits(n.whole) && (n.whole[0] == '0' ==> n.whole == "0")
    && (n.fraction.Some? ==> Digits(n.fraction.value))
    && (n.exponent.Some? ==>
          var (e, sign, digits) := n.exponent.value;
          (e == 'e' || e == 'E') && (sign == "" || sign == "+" || sign == "-") && Digits(digits))
  }

  function RenderNumber(n: Number): string {
    (if n.minus then "-" else "") + n.whole +
    (if n.fraction.Some? then "." + n.fraction.value else "") +
    (if n.exponent.Some? then [n.exponent.value.0] + n.exponent.value.1 + n.exponent.value.2 else "")
  }

  /** A value with the whitespace inside it. */
  datatype Json =
    | Null
    | True
    | False
    | Num(n: Number)
    | Str(chars: seq<StringChar>)
    | Arr(space: string, items: Items)
    | Obj(space: string, members: Members)

  datatype Items = NoItems | Item(before: string, value: Json, after: string, rest: Items)

  datatype Members =
    | NoMembers
    | Member(before: string, key: seq<StringChar>, mid: string, colon: string, value: Json, after: string,
             rest: Members)

  predicate Whitespace(s: string) {
    forall i :: 0 <= i < |s| ==> s[i] == ' ' || s[i] == '\t' || s[i] == '\n' || s[i] == '\r'
  }

  predicate WellFormedChars(xs: seq<StringChar>) {
    forall i :: 0 <= i < |xs| ==> WellFormedChar(xs[i])
  }

  predicate WellFormed(v: Json) {
    match v
    case Null => true
    case True => true
    case False => true
    case Num(n) => WellFormedNumber(n)
    case Str(xs) => WellFormedChars(xs)
    case Arr(space, items) => Whitespace(space) && WellFormedItems(items)
    case Obj(space, members) => Whitespace(space) && WellFormedMembers(members)
  }

  predicate WellFormedItems(items: Items) {
    match items
    case NoItems => true
    case Item(before, value, after, rest) =>
      Whitespace(before) && WellFormed(value) && Whitespace(after) && WellFormedItems(rest)
  }

  predicate WellFormedMembers(members: Members) {
    match members
    case NoMembers => true
    case Member(before, key, mid, colon, value, after, rest) =>
      && Whitespace(before) && WellFormedChars(key) && Whitespace(mid) && Whitespace(colon)
      && WellFormed(value) && Whitespace(after) && WellFormedMembers(rest)
  }

  function Render(v: Json): string {
    match v
    case Null => "null"
    case True => "true"
    case False => "false"
    case Num(n) => RenderNumber(n)
    case Str(xs) => "\"" + RenderChars(xs) + "\""
    case Arr(space, items) => "[" + (if items.NoItems? then space else RenderItems(items)) + "]"
    case Obj(space, members) => "{" + Inside(space, members) + "}"
  }

  function Inside(space: string, members: Members): string
    decreases members, 1
  {
    if members.NoMembers? then space else RenderMembers(members)
  }

  function RenderItems(items: Items): string {
    match items
    case NoItems => ""
    case Item(before, value, after, rest) =>
      before + Render(value) + after + (if rest.NoItems? then "" else "," + RenderItems(rest))
  }

  function RenderMembers(members: Members): string
    decreases members, 0
  {
    match members
    case NoMembers => ""
    case Member(before, key, mid, colon, value, after, rest) =>
      before + ("\"" + RenderChars(key) + "\"") + mid + ":" + colon + Render(value) + after +
      (if rest.NoMembers? then "" else "," + RenderMembers(rest))
  }

  // ---------------------------------------------------------------- scanning the grammar

  predicate Pair(opener: char, closer: char) {
    (opener == '{' && closer == '}') || (opener == '[' && closer == ']')
  }

  function Outside(depth: int): Scan {
    Seeking(depth, false, false)
  }

  /** A text is passed over: inside a structure the scan is where it was before it. */
  ghost predicate Passed(text: string, opener: char, closer: char) {
    forall depth :: depth >= 1 ==> ScanAll(Outside(depth), text, opener, closer) == Outside(depth)
  }

  lemma PassedBoth(a: string, b: string, opener: char, closer: char)
    requires Passed(a, opener, closer) && Passed(b, opener, closer)
    ensures Passed(a + b, opener, closer)
  {
    forall depth | depth >= 1 ensures ScanAll(Outside(depth), a + b, opener, closer) == Outside(depth) {
      ScanSplit(Outside(depth), a, b, opener, closer);
    }
  }

  predicate Neutral(s: string) {
    forall i :: 0 <= i < |s| ==> s[i] !in "{}[]\"\\"
  }

  lemma {:induction false} NeutralPassed(s: string, opener: char, closer: char)
    requires Neutral(s) && Pair(opener, closer)
    ensures Passed(s, opener, closer)
  {
    if s != "" {
      NeutralPassed(s[1..], opener, closer);
      forall depth | depth >= 1 ensures ScanAll(Outside(depth), s, opener, closer) == Outside(depth) {
        assert Step(Outside(depth), s[0], opener, closer) == Outside(depth);
      }
    }
  }

  lemma {:induction false} CharsStayInString(xs: seq<StringChar>, depth: int, opener: char, closer: char)
    requires WellFormedChars(xs) && Pair(opener, closer)
    ensures ScanAll(Seeking(depth, true, false), RenderChars(xs), opener, closer) == Seeking(depth, true, false)
  {
    if xs != [] {
      OneCharStaysInString(xs[0], depth, opener, closer);
      CharsStayInString(xs[1..], depth, opener, closer);
      ScanSplit(Seeking(depth, true, false), RenderChar(xs[0]), RenderChars(xs[1..]), opener, closer);
    }
  }

  lemma {:induction false} OrdinaryStaysInString(s: string, depth: int, opener: char, closer: char)
    requires forall i :: 0 <= i < |s| ==> s[i] != '"' && s[i] != '\\'
    ensures ScanAll(Seeking(depth, true, false), s, opener, closer) == Seeking(depth, true, false)
    decreases s
  {
    if s != "" {
      OrdinaryStaysInString(s[1..], depth, opener, closer);
    }
  }

  lemma EscapeStaysInString(c: char, depth: int, opener: char, closer: char)
    ensures ScanAll(Seeking(depth, true, false), ['\\', c], opener, closer) == Seeking(depth, true, false)
  {
    assert ['\\', c][1..] == [c] && [c][1..] == "";
    assert ScanAll(Seeking(depth, true, true), [c], opener, closer) == Seeking(depth, true, false);
  }

  lemma OneCharStaysInString(x: StringChar, depth: int, opener: char, closer: char)
    requires WellFormedChar(x) && Pair(opener, closer)
    ensures ScanAll(Seeking(depth, true, false), RenderChar(x), opener, closer) == Seeking(depth, true, false)
  {
    match x
    case Plain(c) => OrdinaryStaysInString([c], depth, opener, closer);
    case Escaped(c) => EscapeStaysInString(c, depth, opener, closer);
    case Coded(a, b, c, d) =>
      EscapeStaysInString('u', depth, opener, closer);
      OrdinaryStaysInString([a, b, c, d], depth, opener, closer);
      ScanSplit(Seeking(depth, true, false), ['\\', 'u'], [a, b, c, d], opener, closer);
      assert ['\\', 'u'] + [a, b, c, d] == ['\\', 'u', a, b, c, d];
  }

  lemma StringPassed(xs: seq<StringChar>, opener: char, closer: char)
    requires WellFormedChars(xs) && Pair(opener, closer)
    ensures Passed("\"" + RenderChars(xs) + "\"", opener, closer)
  {
    var inner := RenderChars(xs);
    forall depth | depth >= 1
      ensures ScanAll(Outside(depth), "\"" + inner + "\"", opener, closer) == Outside(depth)
    {
      CharsStayInString(xs, depth, opener, closer);
      assert "\""[1..] == "";
      ScanSplit(Outside(depth), "\"", inner, opener, closer);
      ScanSplit(Outside(depth), "\"" + inner, "\"", opener, closer);
    }
  }

  lemma NeutralBoth(a: string, b: string)
    requires Neutral(a) && Neutral(b)
    ensures Neutral(a + b)
  {
  }

  lemma DigitsNeutral(s: string)
    requires Digits(s)
    ensures Neutral(s)
  {
  }

  lemma NumberNeutral(n: Number)
    requires WellFormedNumber(n)
    ensures Neutral(RenderNumber(n))
  {
    var sign := if n.minus then "-" else "";
    var fraction := if n.fraction.Some? then "." + n.fraction.value else "";
    var exponent := if n.exponent.Some? then [n.exponent.value.0] + n.exponent.value.1 + n.exponent.value.2 else "";
    DigitsNeutral(n.whole);
    if n.fraction.Some? {
      DigitsNeutral(n.fraction.value);
      NeutralBoth(".", n.fraction.value);
    }
    if n.exponent.Some? {
      DigitsNeutral(n.exponent.value.2);
      NeutralBoth([n.exponent.value.0] + n.exponent.value.1, n.exponent.value.2);
    }
    NeutralBoth(sign, n.whole);
    NeutralBoth(sign + n.whole, fraction);
    NeutralBoth(sign + n.whole + fraction, exponent);
  }

  /** What stands between brackets of either kind, itself passed over, is passed over with them. */
  lemma BracketsPassed(open: char, inner: string, close: char, opener: char, closer: char)
    requires Pair(open, close) && Pair(opener, closer) && Passed(inner, opener, closer)
    ensures Passed([open] + inner + [close], opener, closer)
  {
    forall depth | depth >= 1
      ensures ScanAll(Outside(depth), [open] + inner + [close], opener, closer) == Outside(depth)
    {
      var within := if open == opener then depth + 1 else depth;
      assert [open][1..] == "" && [close][1..] == "";
      ScanSplit(Outside(depth), [open], inner, opener, closer);
      ScanSplit(Outside(depth), [open] + inner, [close], opener, closer);
      assert ScanAll(Outside(depth), [open], opener, closer) == Outside(within);
    }
  }

  /** Every well-formed value is passed over, whatever its strings contain. */
  lemma {:induction false} ValuePassed(v: Json, opener: char, closer: char)
    requires WellFormed(v) && Pair(opener, closer)
    ensures Passed(Render(v), opener, closer)
  {
    match v
    case Null => NeutralPassed("null", opener, closer);
    case True => NeutralPassed("true", opener, closer);
    case False => NeutralPassed("false", opener, closer);
    case Num(n) =>
      NumberNeutral(n);
      NeutralPassed(RenderNumber(n), opener, closer);
    case Str(xs) => StringPassed(xs, opener, closer);
    case Arr(space, items) =>
      NeutralPassed(space, opener, closer);
      ItemsPassed(items, opener, closer);
      BracketsPassed('[', if items.NoItems? then space else RenderItems(items), ']', opener, closer);
    case Obj(space, members) =>
      InsidePassed(space, members, opener, closer);
      BracketsPassed('{', Inside(space, members), '}', opener, closer);
  }

  lemma {:induction false} InsidePassed(space: string, members: Members, opener: char, closer: char)
    requires Whitespace(space) && WellFormedMembers(members) && Pair(opener, closer)
    ensures Passed(Inside(space, members), opener, closer)
    decreases members, 1
  {
    NeutralPassed(space, opener, closer);
    MembersPassed(members, opener, closer);
  }

  lemma {:induction false} ItemsPassed(items: Items, opener: char, closer: char)
    requires WellFormedItems(items) && Pair(opener, closer)
    ensures Passed(RenderItems(items), opener, closer)
  {
    match items
    case NoItems => NeutralPassed("", opener, closer);
    case Item(before, value, after, rest) =>
      NeutralPassed(before, opener, closer);
      ValuePassed(value, opener, closer);
      NeutralPassed(after, opener, closer);
      ItemsPassed(rest, opener, closer);
      TailPassed(RenderItems(rest), opener, closer);
      PassedBoth(before, Render(value), opener, closer);
      PassedBoth(before + Render(value), after, opener, closer);
      PassedBoth(before + Render(value) + after, if rest.NoItems? then "" else "," + RenderItems(rest), opener, closer);
  }

  lemma {:induction false} MembersPassed(members: Members, opener: char, closer: char)
    requires WellFormedMembers(members) && Pair(opener, closer)
    ensures Passed(RenderMembers(members), opener, closer)
    decreases members, 0
  {
    match members
    case NoMembers => NeutralPassed("", opener, closer);
    case Member(before, key, mid, colon, value, after, rest) =>
      var lead := before + ("\"" + RenderChars(key) + "\"") + mid + ":" + colon;
      LeadPassed(before, key, mid, colon, opener, closer);
      ValuePassed(value, opener, closer);
      MembersPassed(rest, opener, closer);
      TailPassed(RenderMembers(rest), opener, closer);
      NeutralPassed(after, opener, closer);
      PassedBoth(lead, Render(value), opener, closer);
      PassedBoth(lead + Render(value), after, opener, closer);
      PassedBoth(lead + Render(value) + after, if rest.NoMembers? then "" else "," + RenderMembers(rest), opener,
                 closer);
  }

  /** A key and its colon, with the whitespace around them. */
  lemma LeadPassed(before: string, key: seq<StringChar>, mid: string, colon: string, opener: char, closer: char)
    requires Whitespace(before) && WellFormedChars(key) && Whitespace(mid) && Whitespace(colon) && Pair(opener, closer)
    ensures Passed(before + ("\"" + RenderChars(key) + "\"") + mid + ":" + colon, opener, closer)
  {
    var quoted := "\"" + RenderChars(key) + "\"";
    NeutralPassed(before, opener, closer);
    StringPassed(key, opener, closer);
    NeutralPassed(mid, opener, closer);
    NeutralPassed(":", opener, closer);
    NeutralPassed(colon, opener, closer);
    PassedBoth(before, quoted, opener, closer);
    PassedBoth(before + quoted, mid, opener, closer);
    PassedBoth(before + quoted + mid, ":", opener, closer);
    PassedBoth(before + quoted + mid + ":", colon, opener, closer);
  }

  /** What follows a comma, and nothing at all. */
  lemma TailPassed(rest: string, opener: char, closer: char)
    requires Pair(opener, closer) && Passed(rest, opener, closer)
    ensures Passed("," + rest, opener, closer) && Passed("", opener, closer)
  {
    NeutralPassed(",", opener, closer);
    NeutralPassed("", opener, closer);
    PassedBoth(",", rest, opener, closer);
  }

  // ---------------------------------------------------------------- what is found

  lemma {:induction false} FindAfter(prefix: string, c: char, rest: string)
    requires c !in prefix
    ensures Find(prefix + [c] + rest, c) == Some(|prefix|)
  {
    var text := prefix + [c] + rest;
    if prefix != "" {
      FindAfter(prefix[1..], c, rest);
      assert text[1..] == prefix[1..] + [c] + rest;
    }
  }

  /** A bracketed text whose inside is passed over closes at its own end and nowhere before. */
  lemma BracketsClose(open: char, inner: string, close: char, suffix: string)
    requires Pair(open, close) && Passed(inner, open, close)
    ensures Closing(START, [open] + inner + [close] + suffix, open, close) == Some(|inner| + 2)
  {
    assert [open][1..] == "";
    ScanSplit(START, [open], inner, open, close);
    assert ScanAll(START, [open] + inner, open, close) == Outside(1);
    ClosingSkips(START, [open] + inner, [close] + suffix, open, close);
    assert ([close] + suffix)[0] == close;
    assert [open] + inner + [close] + suffix == [open] + inner + ([close] + suffix);
  }

  lemma SpanFound(prefix: string, open: char, inner: string, close: char, suffix: string)
    requires Pair(open, close) && Passed(inner, open, close) && open !in prefix
    ensures FirstSpan(prefix + ([open] + inner + [close]) + suffix, open, close) == Some([open] + inner + [close])
  {
    var t := [open] + inner + [close];
    var text := prefix + t + suffix;
    assert text == prefix + [open] + (inner + [close] + suffix);
    FindAfter(prefix, open, inner + [close] + suffix);
    assert text[|prefix|..] == [open] + inner + [close] + suffix;
    BracketsClose(open, inner, close, suffix);
    assert text[|prefix|..|prefix| + |t|] == t;
  }

  /** For any prefix without an opening brace, any well-formed object and any suffix, both
      programs find exactly the object. */
  lemma ObjectFound(prefix: string, v: Json, suffix: string)
    requires WellFormed(v) && v.Obj? && '{' !in prefix
    ensures FirstStructure(prefix + Render(v) + suffix) == Some(Render(v))
    ensures FirstSpan(prefix + Render(v) + suffix, '{', '}') == Some(Render(v))
  {
    InsidePassed(v.space, v.members, '{', '}');
    SpanFound(prefix, '{', Inside(v.space, v.members), '}', suffix);
  }

  /** An array is found exactly when no object closes first: objects win wherever they stand. */
  lemma ArrayFound(prefix: string, v: Json, suffix: string)
    requires WellFormed(v) && v.Arr? && '[' !in prefix
    ensures var text := prefix + Render(v) + suffix;
            FirstStructure(text) == Some(Render(v)) <==> FirstSpan(text, '{', '}').None?
  {
    NeutralPassed(v.space, '[', ']');
    ItemsPassed(v.items, '[', ']');
    SpanFound(prefix, '[', if v.items.NoItems? then v.space else RenderItems(v.items), ']', suffix);
    var text := prefix + Render(v) + suffix;
    if FirstSpan(text, '{', '}').Some? {
      SpanIsShortest(text, '{', '}', 0);
    }
  }

  lemma Regroup(prefix: string, space: string, first: string, after: string, more: string, suffix: string)
    ensures prefix + ("[" + (space + first + after + more) + "]") + suffix
            == prefix + "[" + space + first + (after + more + "]" + suffix)
  {
  }

  /** So an array whose first item is an object is cut down to that object. */
  lemma ArrayOfObjectsIsCut(prefix: string, space: string, first: Json, after: string, rest: Items, suffix: string)
    requires WellFormed(first) && first.Obj? && '{' !in prefix && Whitespace(space)
    ensures FirstStructure(prefix + Render(Arr("", Item(space, first, after, rest))) + suffix) == Some(Render(first))
  {
    var more := if rest.NoItems? then "" else "," + RenderItems(rest);
    Regroup(prefix, space, Render(first), after, more, suffix);
    ObjectFound(prefix + "[" + space, first, after + more + "]" + suffix);
    ArrayRendered(space, first, after, rest);
  }

  lemma ArrayRendered(space: string, first: Json, after: string, rest: Items)
    ensures var more := if rest.NoItems? then "" else "," + RenderItems(rest);
            Render(Arr("", Item(space, first, after, rest))) == "[" + (space + Render(first) + after + more) + "]"
  {
    var items := Item(space, first, after, rest);
    assert Render(Arr("", items)) == "[" + RenderItems(items) + "]";
  }

  /** An object cut off anywhere before its end is not found as an object. */
  lemma TruncatedObjectNotFound(prefix: string, v: Json, k: nat)
    requires WellFormed(v) && v.Obj? && '{' !in prefix && k < |Render(v)|
    ensures FirstSpan(prefix + Render(v)[..k], '{', '}') == None
  {
    var t := Render(v);
    InsidePassed(v.space, v.members, '{', '}');
    BracketsClose('{', Inside(v.space, v.members), '}', "");
    assert ['{'] + Inside(v.space, v.members) + ['}'] + "" == t;
    ClosingIsFirst(START, t, '{', '}', k);
    var text := prefix + t[..k];
    if k == 0 {
      assert text == prefix;
      NotFound(prefix, '{');
    } else {
      assert text == prefix + ['{'] + t[1..k];
      FindAfter(prefix, '{', t[1..k]);
      assert text[|prefix|..] == t[..k];
      ClosingIsFirst(START, t[..k], '{', '}', k);
      assert t[..k][..k] == t[..k];
    }
  }

  lemma {:induction false} NotFound(text: string, c: char)
    requires c !in text
    ensures Find(text, c).None?
  {
    if text != "" {
      NotFound(text[1..], c);
    }
  }

  lemma SplitAfter(prefix: string, lead: string, part: string, text: string)
    requires lead + part <= text
    ensures prefix + text == prefix + lead + part + text[|lead + part|..]
  {
    assert text == lead + part + text[|lead + part|..];
  }

  /** From the first opener on, the scan never closes. */
  ghost predicate NothingCloses(text: string, opener: char, closer: char) {
    var at := Find(text, opener);
    at.None? || forall n | 0 <= n <= |text| - at.value ::
      !ScanAll(START, text[at.value..][..n], opener, closer).Closed?
  }

  lemma NoSpanExactly(text: string, opener: char, closer: char)
    ensures FirstSpan(text, opener, closer).None? <==> NothingCloses(text, opener, closer)
  {
    var at := Find(text, opener);
    if at.Some? {
      var rest := text[at.value..];
      forall n | 0 <= n <= |rest|
        ensures ScanAll(START, rest[..n], opener, closer).Closed? ==> FirstSpan(text, opener, closer).Some?
      {
        ClosingIsFirst(START, rest, opener, closer, n);
      }
      ClosingIsFirst(START, rest, opener, closer, |rest|);
      assert FirstSpan(text, opener, closer).Some? ==> !NothingCloses(text, opener, closer) by {
        if FirstSpan(text, opener, closer).Some? {
          ClosingIsFirst(START, rest, opener, closer, Closing(START, rest, opener, closer).value);
        }
      }
    }
  }

  /** What a truncated object yields is whatever closes from the first bracket, wherever that stands:
      nothing exactly when nothing does. */
  lemma TruncatedObjectExactly(prefix: string, v: Json, k: nat)
    requires WellFormed(v) && v.Obj? && '{' !in prefix && k < |Render(v)|
    ensures var text := prefix + Render(v)[..k];
            && FirstStructure(text) == FirstSpan(text, '[', ']')
            && (FirstStructure(text).None? <==> NothingCloses(text, '[', ']'))
  {
    TruncatedObjectNotFound(prefix, v, k);
    NoSpanExactly(prefix + Render(v)[..k], '[', ']');
  }

  /** So the first bracketed text that arrived whole is taken, be it an array or not. */
  lemma TruncatedObjectYieldsABracket(prefix: string, v: Json, k: nat, lead: string, inner: string)
    requires WellFormed(v) && v.Obj? && '{' !in prefix && k < |Render(v)|
    requires Passed(inner, '[', ']') && '[' !in prefix + lead
    requires lead + (['['] + inner + [']']) <= Render(v)[..k]
    ensures FirstStructure(prefix + Render(v)[..k]) == Some(['['] + inner + [']'])
  {
    var arrived, t := Render(v)[..k], ['['] + inner + [']'];
    TruncatedObjectExactly(prefix, v, k);
    SplitAfter(prefix, lead, t, arrived);
    SpanFound(prefix + lead, '[', inner, ']', arrived[|lead + t|..]);
  }

  /** An array of the object, in particular. */
  lemma TruncatedObjectYieldsItsArray(prefix: string, v: Json, k: nat, lead: string, within: Json)
    requires WellFormed(v) && v.Obj? && '{' !in prefix && k < |Render(v)|
    requires WellFormed(within) && within.Arr? && '[' !in prefix + lead
    requires lead + Render(within) <= Render(v)[..k]
    ensures FirstStructure(prefix + Render(v)[..k]) == Some(Render(within))
  {
    NeutralPassed(within.space, '[', ']');
    ItemsPassed(within.items, '[', ']');
    var inner := if within.items.NoItems? then within.space else RenderItems(within.items);
    TruncatedObjectYieldsABracket(prefix, v, k, lead, inner);
  }

  function Plainly(s: string): seq<StringChar> {
    seq(|s|, i requires 0 <= i < |s| => Plain(s[i]))
  }

  lemma {:induction false} PlainlyRendered(s: string)
    ensures RenderChars(Plainly(s)) == s
  {
    if s != "" {
      PlainlyRendered(s[1..]);
      assert Plainly(s)[1..] == Plainly(s[1..]);
    }
  }

  /** All of such an object up to the end of its first string's bracket. */
  function ThroughBracket(space: string, key: string, colon: string, a: string, inner: string): string {
    "{" + space + "\"" + key + "\":" + colon + "\"" + a + "[" + inner + "]"
  }

  lemma StartsThroughBracket(space: string, key: string, colon: string, a: string, inner: string, c: string,
                             after: string, rest: Members)
    ensures var text := Plainly(a + "[" + inner + "]" + c);
            ThroughBracket(space, key, colon, a, inner)
            <= Render(Obj("", Member(space, Plainly(key), "", colon, Str(text), after, rest)))
  {
    PlainlyRendered(key);
    PlainlyRendered(a + "[" + inner + "]" + c);
    var more := if rest.NoMembers? then "" else "," + RenderMembers(rest);
    var text := Plainly(a + "[" + inner + "]" + c);
    var members := Member(space, Plainly(key), "", colon, Str(text), after, rest);
    Prefixed(space, key, colon, a, inner, c, after, more);
    assert Render(Str(text)) == "\"" + (a + "[" + inner + "]" + c) + "\"";
    assert RenderMembers(members) ==
           space + ("\"" + key + "\"") + "" + ":" + colon + Render(Str(text)) + after + more;
  }

  lemma Prefixed(space: string, key: string, colon: string, a: string, inner: string, c: string, after: string,
                 more: string)
    ensures "{" + (space + ("\"" + key + "\"") + "" + ":" + colon + ("\"" + (a + "[" + inner + "]" + c) + "\"") + after
                   + more) + "}"
            == ThroughBracket(space, key, colon, a, inner) + (c + "\"" + after + more + "}")
  {
  }

  /** Or a bracketed part of a string: cut off anywhere after it, the object yields that. */
  lemma StringIsTakenForAnArray(prefix: string, space: string, key: string, colon: string, a: string, inner: string,
                                c: string, after: string, rest: Members, k: nat)
    requires var text := Plainly(a + "[" + inner + "]" + c);
             var v := Obj("", Member(space, Plainly(key), "", colon, Str(text), after, rest));
             WellFormed(v) && |ThroughBracket(space, key, colon, a, inner)| <= k < |Render(v)|
    requires '{' !in prefix && '[' !in prefix + key + a && Neutral(inner)
    ensures var text := Plainly(a + "[" + inner + "]" + c);
            var v := Obj("", Member(space, Plainly(key), "", colon, Str(text), after, rest));
            FirstStructure(prefix + Render(v)[..k]) == Some("[" + inner + "]")
  {
    var text := Plainly(a + "[" + inner + "]" + c);
    var v := Obj("", Member(space, Plainly(key), "", colon, Str(text), after, rest));
    var lead := "{" + space + "\"" + key + "\":" + colon + "\"" + a;
    NeutralPassed(inner, '[', ']');
    StartsThroughBracket(space, key, colon, a, inner, c, after, rest);
    assert lead + (['['] + inner + [']']) == ThroughBracket(space, key, colon, a, inner);
    assert '[' !in prefix + lead by {
      assert Whitespace(space) && Whitespace(colon);
    }
    TruncatedObjectYieldsABracket(prefix, v, k, lead, inner);
  }

  /** For one: {"note": "see [1]", "x": null}, cut off anywhere after its bracket. */
  const NOTE := Obj("", Member("", Plainly("note"), "", " ", Str(Plainly("see " + "[" + "1" + "]" + "")), "",
                               Member(" ", Plainly("x"), "", " ", Null, "", NoMembers)))

  lemma NoteIsTakenForAnArray(k: nat)
    requires |ThroughBracket("", "note", " ", "see ", "1")| <= k < |Render(NOTE)|
    ensures WellFormed(NOTE) && FirstStructure(Render(NOTE)[..k]) == Some("[1]")
  {
    var rest := Member(" ", Plainly("x"), "", " ", Null, "", NoMembers);
    StringIsTakenForAnArray("", "", "note", " ", "see ", "1", "", "", rest, k);
    assert "" + Render(NOTE)[..k] == Render(NOTE)[..k];
    assert "[" + "1" + "]" == "[1]";
  }
}
