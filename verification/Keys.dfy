/** Addresses as text: the grammar of libbeachcomber/src/key.rs. Every address has one
    canonical text, which reads back as it; and what the code asks of two texts is what
    this project asks of the addresses. */
module Keys {
  import opened Prelude
  import opened Tree

  // ---- Writing ----------------------------------------------------------

  predicate EndsBare(c: char) {
    c == '.' || c == '[' || c == ']'
  }

  /** A segment written as it is; any other is written `['…']`. */
  predicate Bare(seg: Seg) {
    seg != "" && forall i | 0 <= i < |seg| :: !EndsBare(seg[i])
  }

  function Replace(s: string, c: char, with: string): string {
    if s == "" then "" else (if s[0] == c then with else [s[0]]) + Replace(s[1..], c, with)
  }

  function Quote(seg: Seg): (q: string)
    ensures q != "" && (q[0] == '[' <==> !Bare(seg))
  {
    if Bare(seg) then seg
    else "['" + Replace(Replace(seg, '\\', "\\\\"), '\'', "\\'") + "']"
  }

  function Push(text: string, seg: Seg): (t: string)
    ensures t != ""
  {
    if text == "" || Quote(seg)[0] == '[' then text + Quote(seg) else text + "." + Quote(seg)
  }

  function PushAll(text: string, a: Addr): string
    decreases |a|
  {
    if a == [] then text else PushAll(Push(text, a[0]), a[1..])
  }

  /** `format_address`: the canonical text of an address. */
  function Text(a: Addr): string {
    PushAll("", a)
  }

  // ---- Reading ----------------------------------------------------------

  /** How far a bare segment goes. */
  function BareLen(t: string): (n: nat)
    ensures n <= |t|
  {
    if t == "" || EndsBare(t[0]) then 0 else 1 + BareLen(t[1..])
  }

  /** `parse_bare`: a segment and what follows it. */
  function ParseBare(t: string): (r: Option<(Seg, string)>)
    ensures r.Some? ==> |r.value.1| < |t|
  {
    var n := BareLen(t);
    if n == 0 then None else Some((t[..n], t[n..]))
  }

  /** What follows an opening quote, up to the closing one. */
  function ParseQuoted(t: string, open: char): (r: Option<(Seg, string)>)
    ensures r.Some? ==> |r.value.1| < |t|
  {
    if t == "" then None
    else if t[0] == '\\' then
      if |t| == 1 || (t[1] != open && t[1] != '\\') then None
      else match ParseQuoted(t[2..], open)
        case Some((seg, rest)) => Some(([t[1]] + seg, rest))
        case None => None
    else if t[0] == open then Some(("", t[1..]))
    else match ParseQuoted(t[1..], open)
      case Some((seg, rest)) => Some(([t[0]] + seg, rest))
      case None => None
  }

  predicate Digit(c: char) {
    '0' <= c <= '9'
  }

  function DigitsLen(t: string): (n: nat)
    ensures n <= |t|
  {
    if t == "" || !Digit(t[0]) then 0 else 1 + DigitsLen(t[1..])
  }

  function Decimal(digits: string): int {
    if digits == "" then 0
    else 10 * Decimal(digits[..|digits| - 1]) + (digits[|digits| - 1] as int - '0' as int)
  }

  const INDEX_END := 0x8000_0000_0000_0000

  /** `canonical_index`: digits with no leading zero that fit 64 bits, and a minus
      before any of them but zero. */
  predicate CanonicalIndex(s: string) {
    var negative := s != "" && s[0] == '-';
    var digits := if negative then s[1..] else s;
    && digits != "" && DigitsLen(digits) == |digits|
    && (digits == "0" || digits[0] != '0')
    && !(negative && digits == "0")
    && Decimal(digits) < INDEX_END + (if negative then 1 else 0)
  }

  function ParseIndex(t: string): (r: Option<(Seg, string)>)
    ensures r.Some? ==> |r.value.1| < |t|
  {
    var n := if t != "" && t[0] == '-' then 1 + DigitsLen(t[1..]) else DigitsLen(t);
    if CanonicalIndex(t[..n]) then Some((t[..n], t[n..])) else None
  }

  /** `parse_bracket`: what follows a `[`, up to its `]`. */
  function ParseBracket(t: string): (r: Option<(Seg, string)>)
    ensures r.Some? ==> |r.value.1| < |t|
  {
    var inner :=
      if t == "" then None
      else if t[0] == '\'' || t[0] == '\"' then ParseQuoted(t[1..], t[0])
      else ParseIndex(t);
    if inner.Some? && inner.value.1 != "" && inner.value.1[0] == ']'
    then Some((inner.value.0, inner.value.1[1..]))
    else None
  }

  /** The segment at the front of a text, where a bare one may start it or not. */
  function ParseFront(t: string, bare: bool): (r: Option<(Seg, string)>)
    requires t != ""
    ensures r.Some? ==> |r.value.1| < |t|
  {
    if t[0] == '[' then ParseBracket(t[1..])
    else if t[0] == '.' then ParseBare(t[1..])
    else if t[0] == ']' || !bare then None
    else ParseBare(t)
  }

  /** `parse_segments`. */
  function Parse(t: string, bare: bool): Option<Addr>
    decreases |t|
  {
    if t == "" then Some([])
    else
      match ParseFront(t, bare)
      case Some((seg, rest)) => Join([seg], Parse(rest, false))
      case None => None
  }

  function Join(a: Addr, rest: Option<Addr>): Option<Addr> {
    if rest.Some? then Some(a + rest.value) else None
  }

  predicate Brackets(t: string) {
    '[' in t || ']' in t
  }

  function Split(t: string): (parts: seq<string>)
    ensures parts != []
  {
    var n := DotAt(t);
    if n == |t| then [t] else [t[..n]] + Split(t[n + 1..])
  }

  function DotAt(t: string): (n: nat)
    ensures n <= |t|
  {
    if t == "" || t[0] == '.' then 0 else 1 + DotAt(t[1..])
  }

  /** `segments`: a text without brackets is split at its dots, whatever it is; one that
      is no address has none. */
  function Segments(t: string): Addr {
    if t == "" then []
    else if !Brackets(t) then Split(t)
    else match Parse(t, true)
      case Some(a) => a
      case None => []
  }

  function Parent(t: string): Option<string> {
    var a := Segments(t);
    if a == [] then None else Some(Text(a[..|a| - 1]))
  }

  predicate GoesOn(tail: string) {
    tail != "" && (tail[0] == '.' || tail[0] == '[')
  }

  predicate Within(t: string, above: string) {
    above == "" || t == above || (above <= t && GoesOn(t[|above|..]))
  }

  // ---- The loops --------------------------------------------------------

  method ReadBare(t: string) returns (r: Option<(Seg, string)>)
    ensures r == ParseBare(t)
  {
    var n := 0;
    while n < |t| && !EndsBare(t[n])
      invariant n <= |t| && BareLen(t) == n + BareLen(t[n..])
    {
      assert t[n..][1..] == t[n + 1..];
      n := n + 1;
    }
    r := if n == 0 then None else Some((t[..n], t[n..]));
  }

  function Longer(seg: Seg, more: Option<(Seg, string)>): Option<(Seg, string)> {
    if more.Some? then Some((seg + more.value.0, more.value.1)) else None
  }

  /** One turn of the loop over a quoted segment. */
  lemma StepQuoted(seg: Seg, rest: string, open: char)
    requires rest != "" && (if rest[0] == '\\' then |rest| > 1 && (rest[1] == open || rest[1] == '\\') else rest[0] != open)
    ensures var (c, left) := if rest[0] == '\\' then (rest[1], rest[2..]) else (rest[0], rest[1..]);
      Longer(seg, ParseQuoted(rest, open)) == Longer(seg + [c], ParseQuoted(left, open))
  {
    var (c, left) := if rest[0] == '\\' then (rest[1], rest[2..]) else (rest[0], rest[1..]);
    var more := ParseQuoted(left, open);
    if more.Some? {
      Regroup(seg, [c], more.value.0);
    }
  }

  method ReadQuoted(t: string, open: char) returns (r: Option<(Seg, string)>)
    ensures r == ParseQuoted(t, open)
  {
    var seg, rest := "", t;
    ghost var whole := ParseQuoted(t, open);
    assert whole.Some? ==> "" + whole.value.0 == whole.value.0;
    while rest != "" && (rest[0] == '\\' || rest[0] != open)
      invariant ParseQuoted(t, open) == Longer(seg, ParseQuoted(rest, open))
      decreases |rest|
    {
      if rest[0] == '\\' {
        if |rest| == 1 || (rest[1] != open && rest[1] != '\\') {
          return None;
        }
        StepQuoted(seg, rest, open);
        seg, rest := seg + [rest[1]], rest[2..];
      } else {
        StepQuoted(seg, rest, open);
        seg, rest := seg + [rest[0]], rest[1..];
      }
    }
    assert seg + "" == seg;
    r := if rest == "" then None else Some((seg, rest[1..]));
  }

  method ReadBracket(t: string) returns (r: Option<(Seg, string)>)
    ensures r == ParseBracket(t)
  {
    var inner: Option<(Seg, string)> := None;
    if t != "" && (t[0] == '\'' || t[0] == '\"') {
      inner := ReadQuoted(t[1..], t[0]);
    } else if t != "" {
      inner := ParseIndex(t);
    }
    match inner
    case Some((seg, rest)) => r := if rest != "" && rest[0] == ']' then Some((seg, rest[1..])) else None;
    case None => r := None;
  }

  method ReadSegments(text: string, afterHead: bool) returns (out: Option<Addr>)
    ensures out == Parse(text, !afterHead)
  {
    hide ParseBracket, ParseBare, Parse;
    var found: Addr, rest, bare := [], text, !afterHead;
    JoinNothing(Parse(text, bare));
    while rest != ""
      invariant Parse(text, !afterHead) == Join(found, Parse(rest, bare))
      decreases |rest|
    {
      var front: Option<(Seg, string)> := None;
      if rest[0] == '[' {
        front := ReadBracket(rest[1..]);
      } else if rest[0] == '.' {
        front := ReadBare(rest[1..]);
      } else if rest[0] != ']' && bare {
        front := ReadBare(rest);
      }
      StepSegments(found, rest, bare);
      if front.None? {
        return None;
      }
      found, rest, bare := found + [front.value.0], front.value.1, false;
    }
    NothingLeft(found, bare);
    out := Some(found);
  }

  /** One turn of the loop over segments. */
  lemma StepSegments(found: Addr, rest: string, bare: bool)
    requires rest != ""
    ensures Join(found, Parse(rest, bare)) ==
      match ParseFront(rest, bare)
      case Some((seg, left)) => Join(found + [seg], Parse(left, false))
      case None => None
  {
    hide ParseFront;
    match ParseFront(rest, bare)
    case Some((seg, left)) =>
      if Parse(left, false).Some? {
        Regroup(found, [seg], Parse(left, false).value);
      }
    case None =>
  }

  lemma NothingLeft(found: Addr, bare: bool)
    ensures Join(found, Parse("", bare)) == Some(found)
  {
    assert found + [] == found;
  }

  lemma JoinNothing(rest: Option<Addr>)
    ensures Join([], rest) == rest
  {
    if rest.Some? {
      assert [] + rest.value == rest.value;
    }
  }

  // ---- A canonical text reads back --------------------------------------

  /** The segment's quotes and backslashes escaped, each on its own. */
  function Escaped(seg: Seg): string {
    if seg == "" then ""
    else (if seg[0] == '\\' then "\\\\" else if seg[0] == '\'' then "\\'" else [seg[0]]) + Escaped(seg[1..])
  }

  lemma {:induction false} ReplaceJoins(s: string, t: string, c: char, with: string)
    ensures Replace(s + t, c, with) == Replace(s, c, with) + Replace(t, c, with)
  {
    if s == "" {
      assert s + t == t;
    } else {
      ReplaceJoins(s[1..], t, c, with);
      assert (s + t)[1..] == s[1..] + t && (s + t)[0] == s[0];
      Regroup(if s[0] == c then with else [s[0]], Replace(s[1..], c, with), Replace(t, c, with));
    }
  }

  lemma {:induction false} EscapedIs(seg: Seg)
    ensures Replace(Replace(seg, '\\', "\\\\"), '\'', "\\'") == Escaped(seg)
  {
    if seg != "" {
      EscapedIs(seg[1..]);
      var first := if seg[0] == '\\' then "\\\\" else [seg[0]];
      ReplaceJoins(first, Replace(seg[1..], '\\', "\\\\"), '\'', "\\'");
      if seg[0] == '\\' {
        assert first[1..][1..] == "" && Replace(first[1..], '\'', "\\'") == first[1..];
      } else {
        assert first[1..] == "";
      }
    }
  }

  /** A segment as it stands after another. */
  function Piece(seg: Seg): (p: string)
    ensures GoesOn(p) && (p[0] == '.' <==> Bare(seg))
  {
    if Bare(seg) then "." + seg else Quote(seg)
  }

  function Suffix(a: Addr): string {
    if a == [] then "" else Piece(a[0]) + Suffix(a[1..])
  }

  lemma PushIs(text: string, seg: Seg)
    requires text != ""
    ensures Push(text, seg) == text + Piece(seg)
  {
    hide Quote;
    if Bare(seg) {
      Regroup(text, ".", seg);
      assert Quote(seg) == seg by { BareQuote(seg); }
    }
  }

  lemma BareQuote(seg: Seg)
    requires Bare(seg)
    ensures Quote(seg) == seg
  {
  }

  lemma {:induction false} PushAllIs(text: string, a: Addr)
    requires text != ""
    ensures PushAll(text, a) == text + Suffix(a)
    decreases |a|
  {
    hide Push, Piece;
    if a == [] {
      assert text + "" == text;
    } else {
      PushIs(text, a[0]);
      PushAllIs(Push(text, a[0]), a[1..]);
      Regroup(text, Piece(a[0]), Suffix(a[1..]));
    }
  }

  lemma TextIs(a: Addr)
    requires a != []
    ensures Text(a) == Quote(a[0]) + Suffix(a[1..])
  {
    PushAllIs(Push("", a[0]), a[1..]);
    assert "" + Quote(a[0]) == Quote(a[0]);
  }

  lemma {:induction false} SuffixJoins(a: Addr, b: Addr)
    ensures Suffix(a + b) == Suffix(a) + Suffix(b)
  {
    hide Piece;
    if a == [] {
      assert a + b == b;
      assert "" + Suffix(b) == Suffix(b);
    } else {
      SuffixJoins(a[1..], b);
      assert (a + b)[1..] == a[1..] + b;
      Regroup(Piece(a[0]), Suffix(a[1..]), Suffix(b));
    }
  }

  /** Nothing that goes on from a segment reads as part of it. */
  predicate Ends(tail: string) {
    tail == "" || EndsBare(tail[0])
  }

  lemma {:induction false} BareRun(seg: Seg, tail: string)
    requires (forall i | 0 <= i < |seg| :: !EndsBare(seg[i])) && Ends(tail)
    ensures BareLen(seg + tail) == |seg|
  {
    if seg == "" {
      assert seg + tail == tail;
    } else {
      assert (seg + tail)[1..] == seg[1..] + tail;
      BareRun(seg[1..], tail);
    }
  }

  lemma BareReads(seg: Seg, tail: string)
    requires Bare(seg) && Ends(tail)
    ensures ParseBare(seg + tail) == Some((seg, tail))
  {
    BareRun(seg, tail);
    assert (seg + tail)[..|seg|] == seg && (seg + tail)[|seg|..] == tail;
  }

  /** One character of a quoted segment, escaped or not. */
  lemma QuotedStep(c: char, more: string)
    ensures var t := Escaped([c]) + more;
      ParseQuoted(t, '\'') == Longer([c], ParseQuoted(more, '\''))
  {
    assert [c][1..] == "" && Escaped([c][1..]) == "";
    if c == '\\' || c == '\'' {
      var t := ['\\', c] + more;
      assert Escaped([c]) == ['\\', c];
      assert t[2..] == more && t[1] == c;
    } else {
      var t := [c] + more;
      assert Escaped([c]) == [c];
      assert t[1..] == more;
    }
  }

  lemma {:induction false} QuotedReads(seg: Seg, tail: string)
    ensures ParseQuoted(Escaped(seg) + ("'" + tail), '\'') == Some((seg, tail))
  {
    if seg == "" {
      var t := "'" + tail;
      assert Escaped(seg) + t == t && t[1..] == tail;
    } else {
      var more := Escaped(seg[1..]) + ("'" + tail);
      QuotedReads(seg[1..], tail);
      QuotedStep(seg[0], more);
      EscapedHead(seg);
      Regroup(Escaped([seg[0]]), Escaped(seg[1..]), "'" + tail);
      assert [seg[0]] + seg[1..] == seg;
    }
  }

  lemma EscapedHead(seg: Seg)
    requires seg != ""
    ensures Escaped(seg) == Escaped([seg[0]]) + Escaped(seg[1..])
  {
    assert [seg[0]][1..] == "" && Escaped([seg[0]][1..]) == "";
    var first := if seg[0] == '\\' then "\\\\" else if seg[0] == '\'' then "\\'" else [seg[0]];
    assert first + "" == first;
  }

  lemma QuoteIs(seg: Seg)
    requires !Bare(seg)
    ensures Quote(seg) == "['" + (Escaped(seg) + "']")
  {
    EscapedIs(seg);
  }

  lemma QuoteReads(seg: Seg, tail: string)
    requires !Bare(seg)
    ensures Quote(seg)[0] == '[' && ParseBracket(Quote(seg)[1..] + tail) == Some((seg, tail))
  {
    hide Quote, Escaped, ParseQuoted, ParseIndex;
    QuoteIs(seg);
    QuotedReads(seg, "]" + tail);
    var inner := Escaped(seg) + ("'" + ("]" + tail));
    var t := Quote(seg)[1..] + tail;
    assert t == "'" + inner;
    assert t[1..] == inner;
    assert ("]" + tail)[1..] == tail;
  }

  /** What stands at the front of a text reads as the segment it was written for. */
  lemma PieceReads(seg: Seg, tail: string, first: bool)
    requires Ends(tail)
    ensures var t := (if first then Quote(seg) else Piece(seg)) + tail;
      t != "" && ParseFront(t, first) == Some((seg, tail))
  {
    hide ParseBracket, ParseBare;
    var t := (if first then Quote(seg) else Piece(seg)) + tail;
    if Bare(seg) {
      BareReads(seg, tail);
      if !first {
        assert t[1..] == seg + tail;
      }
    } else {
      QuoteReads(seg, tail);
      assert t[1..] == Quote(seg)[1..] + tail;
    }
  }

  lemma SuffixEnds(a: Addr, tail: string)
    requires Ends(tail)
    ensures Ends(Suffix(a) + tail)
  {
    if a == [] {
      assert Suffix(a) + tail == tail;
    }
  }

  lemma {:induction false} SuffixReads(a: Addr, tail: string)
    requires Ends(tail)
    ensures Parse(Suffix(a) + tail, false) == Join(a, Parse(tail, false))
    decreases |a|
  {
    if a == [] {
      assert Suffix(a) + tail == tail;
      JoinNothing(Parse(tail, false));
    } else {
      hide Piece, ParseFront, Ends;
      var more := Suffix(a[1..]) + tail;
      Regroup(Piece(a[0]), Suffix(a[1..]), tail);
      SuffixEnds(a[1..], tail);
      PieceReads(a[0], more, false);
      SuffixReads(a[1..], tail);
      JoinJoins(a, Parse(tail, false));
    }
  }

  lemma JoinJoins(a: Addr, rest: Option<Addr>)
    requires a != []
    ensures Join([a[0]], Join(a[1..], rest)) == Join(a, rest)
  {
    if rest.Some? {
      assert [a[0]] + (a[1..] + rest.value) == a + rest.value;
    }
  }

  /** The text of an address, and whatever goes on from it. */
  lemma TextReads(a: Addr, tail: string)
    requires a != [] && Ends(tail)
    ensures Parse(Text(a) + tail, true) == Join(a, Parse(tail, false))
  {
    hide Quote, Suffix, ParseFront, Text, Ends;
    TextIs(a);
    var more := Suffix(a[1..]) + tail;
    Regroup(Quote(a[0]), Suffix(a[1..]), tail);
    SuffixEnds(a[1..], tail);
    PieceReads(a[0], more, true);
    SuffixReads(a[1..], tail);
    JoinJoins(a, Parse(tail, false));
  }

  /** What the text of an address is parsed as, and split into: the address. */
  lemma ReadsBack(a: Addr)
    ensures Parse(Text(a), true) == Some(a)
    ensures Segments(Text(a)) == a
  {
    hide Parse, Split, Brackets;
    if a == [] {
      assert Parse("", true) == Some([]) by { NothingLeft([], true); JoinNothing(Parse("", true)); }
    } else {
      assert Text(a) + "" == Text(a) && Ends("");
      TextReads(a, "");
      NothingLeft(a, false);
      TextIs(a);
      if !Brackets(Text(a)) {
        SplitReads(a);
      }
    }
  }

  lemma DotRun(seg: Seg, tail: string)
    requires Bare(seg) && (tail == "" || tail[0] == '.')
    ensures DotAt(seg + tail) == |seg|
  {
    if |seg| == 1 {
      assert (seg + tail)[1..] == tail;
    } else {
      assert (seg + tail)[1..] == seg[1..] + tail;
      DotRun(seg[1..], tail);
    }
  }

  lemma QuoteBrackets(seg: Seg)
    requires !Bare(seg)
    ensures '[' in Quote(seg)
  {
  }

  /** Without brackets every segment is bare. */
  lemma {:induction false} BareSuffix(a: Addr)
    requires '[' !in Suffix(a)
    ensures a != [] ==> Bare(a[0]) && '[' !in Suffix(a[1..]) && Suffix(a)[0] == '.'
  {
    if a != [] && !Bare(a[0]) {
      QuoteBrackets(a[0]);
    }
  }

  lemma {:induction false} SplitParts(seg: Seg, a: Addr)
    requires Bare(seg) && '[' !in Suffix(a)
    ensures Split(seg + Suffix(a)) == [seg] + a
    decreases |a|
  {
    hide Bare, Suffix;
    BareSuffix(a);
    var t := seg + Suffix(a);
    if a == [] {
      assert Suffix(a) == "" by { EmptySuffix(); }
      assert t == seg;
      DotRun(seg, "");
    } else {
      DotRun(seg, Suffix(a));
      SuffixIs(a);
      assert t[..|seg|] == seg && t[|seg| + 1..] == a[0] + Suffix(a[1..]);
      SplitParts(a[0], a[1..]);
      assert [seg] + ([a[0]] + a[1..]) == [seg] + a;
    }
  }

  lemma EmptySuffix()
    ensures Suffix([]) == ""
  {
  }

  lemma SuffixIs(a: Addr)
    requires a != [] && Bare(a[0])
    ensures Suffix(a) == "." + (a[0] + Suffix(a[1..]))
  {
    Regroup(".", a[0], Suffix(a[1..]));
  }

  lemma SplitReads(a: Addr)
    requires a != [] && !Brackets(Text(a))
    ensures Split(Text(a)) == a
  {
    hide Split, Suffix;
    TextIs(a);
    if !Bare(a[0]) {
      QuoteBrackets(a[0]);
    }
    SplitParts(a[0], a[1..]);
    assert [a[0]] + a[1..] == a;
  }

  /** Two addresses have one text only if they are one. */
  lemma TextTellsApart(a: Addr, b: Addr)
    ensures Text(a) == Text(b) <==> a == b
  {
    ReadsBack(a);
    ReadsBack(b);
  }

  /** `parent`, of a canonical text: the text of the address above. */
  lemma ParentIs(a: Addr)
    ensures Parent(Text(a)) == if a == [] then None else Some(Text(a[..|a| - 1]))
  {
    ReadsBack(a);
  }

  lemma TextGoesOn(a: Addr, b: Addr)
    requires a != []
    ensures Text(a + b) == Text(a) + Suffix(b)
  {
    hide Suffix, Quote, Text;
    TextIs(a);
    TextIs(a + b);
    assert (a + b)[1..] == a[1..] + b;
    SuffixJoins(a[1..], b);
    Regroup(Quote(a[0]), Suffix(a[1..]), Suffix(b));
  }

  /** A text that goes on from another's address, with a dot or a bracket, is the text
      of an address below. */
  lemma GoesOnIs(a: Addr, b: Addr)
    requires b != []
    ensures b < a ==> Text(b) <= Text(a) && Text(a)[|Text(b)|..] == Suffix(a[|b|..])
    ensures Text(b) <= Text(a) && GoesOn(Text(a)[|Text(b)|..]) ==> b < a
  {
    hide Text, Suffix, Parse;
    if b < a {
      assert b + a[|b|..] == a;
      TextGoesOn(b, a[|b|..]);
    }
    if Text(b) <= Text(a) && GoesOn(Text(a)[|Text(b)|..]) {
      var tail := Text(a)[|Text(b)|..];
      assert Text(b) + tail == Text(a);
      TextReads(b, tail);
      ReadsBack(a);
      assert |a| == |b| ==> a == b;
    }
  }

  /** `within`: one text lies within another exactly if its address is at or below. */
  lemma WithinIs(a: Addr, b: Addr)
    ensures Within(Text(a), Text(b)) <==> b <= a
  {
    hide Text, Suffix;
    if b == [] {
      assert Text(b) == "" by { TextOfRoot(); }
    } else {
      assert Text(b) != "" by { TextIs(b); }
      TextTellsApart(a, b);
      GoesOnIs(a, b);
      if b < a {
        SuffixGoesOn(a[|b|..]);
      }
    }
  }

  lemma TextOfRoot()
    ensures Text([]) == ""
  {
  }

  lemma SuffixGoesOn(a: Addr)
    requires a != []
    ensures GoesOn(Suffix(a)) && (Suffix(a)[0] == '.' <==> Bare(a[0]))
  {
  }

  // ---- Whole keys -------------------------------------------------------

  /** `head_of` stops here. */
  function HeadLen(key: string): (n: nat)
    ensures n <= |key|
    ensures n < |key| ==> GoesOn(key[n..])
    ensures forall i | 0 <= i < n :: key[i] != '.' && key[i] != '['
  {
    if key == "" || key[0] == '.' || key[0] == '[' then 0
    else
      var n := HeadLen(key[1..]);
      assert n < |key[1..]| ==> key[1..][n..] == key[n + 1..];
      assert forall i | 0 < i < n + 1 :: key[i] == key[1..][i - 1];
      1 + n
  }

  predicate HeadOk(head: string) {
    head != "" && head[0] != '/' && head[0] != '~' && ']' !in head
  }

  /** `split_key`: a head, and the canonical text of the address below it. */
  function SplitKey(key: string): Option<(string, string)> {
    var head := key[..HeadLen(key)];
    if !HeadOk(head) then None
    else match Parse(key[|head|..], false)
      case Some(a) => Some((head, Text(a)))
      case None => None
  }

  /** `join`. */
  function JoinKey(head: string, text: string): string {
    if text == "" then head else if text[0] == '[' then head + text else head + "." + text
  }

  lemma {:induction false} HeadRun(head: string, tail: string)
    requires (forall i | 0 <= i < |head| :: head[i] != '.' && head[i] != '[') && (tail == "" || GoesOn(tail))
    ensures HeadLen(head + tail) == |head|
  {
    if head == "" {
      assert head + tail == tail;
    } else {
      assert (head + tail)[1..] == head[1..] + tail;
      HeadRun(head[1..], tail);
    }
  }

  /** A head and an address, printed as a key, are typed back as the same head and the
      same address. */
  lemma KeyReadsBack(head: string, a: Addr)
    requires HeadOk(head) && forall i | 0 <= i < |head| :: head[i] != '.' && head[i] != '['
    ensures SplitKey(JoinKey(head, Text(a))) == Some((head, Text(a)))
  {
    hide Text, Parse, Suffix, Quote, HeadLen;
    assert JoinKey(head, Text(a)) == head + Suffix(a) by { JoinKeyIs(head, a); }
    if a == [] { EmptySuffix(); } else { SuffixGoesOn(a); }
    HeadRun(head, Suffix(a));
    var key := head + Suffix(a);
    assert key[..|head|] == head && key[|head|..] == Suffix(a);
    assert Suffix(a) + "" == Suffix(a);
    SuffixReads(a, "");
    NothingLeft(a, false);
  }

  lemma JoinKeyIs(head: string, a: Addr)
    ensures JoinKey(head, Text(a)) == head + Suffix(a)
  {
    if a != [] {
      hide Text;
      TextIs(a);
      if Bare(a[0]) {
        SuffixIs(a);
        Regroup(head, ".", Text(a));
      } else {
        assert Quote(a[0]) + Suffix(a[1..]) == Suffix(a);
      }
    }
  }

  /** A key in its canonical form, where it is one. */
  function Printed(key: string): string {
    match SplitKey(key)
    case Some((head, text)) => JoinKey(head, text)
    case None => key
  }

  /** So a key typed any way the grammar allows is the same key once printed. */
  lemma PrintedKeyIsTheKey(key: string)
    ensures SplitKey(Printed(key)) == SplitKey(key)
  {
    hide Text, Parse;
    if SplitKey(key).Some? {
      var head := key[..HeadLen(key)];
      KeyReadsBack(head, Parse(key[|head|..], false).value);
    }
  }

  // ---- What a text reads as ---------------------------------------------

  /** The canonical text of an address; a text that reads as an address and is not its
      canonical text; or one that reads as none. */
  datatype Reading = Canonical(addr: Addr) | Loose(addr: Addr) | Unread

  function ReadingOf(t: string): (r: Reading)
    ensures r.Canonical? ==> Text(r.addr) == t
    ensures r.Loose? ==> r.addr != []
  {
    var a := Segments(t);
    if Text(a) == t then Canonical(a) else if a == [] then Unread else Loose(a)
  }

  lemma TextIsCanonical(a: Addr)
    ensures ReadingOf(Text(a)) == Canonical(a)
  {
    ReadsBack(a);
  }
}
