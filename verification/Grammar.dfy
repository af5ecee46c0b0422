/** The grammar of addresses (libbeachcomber/src/key.rs) as its documentation gives it, and
    the parser of `Keys` against it: a text is read as exactly the address it spells, and
    one that spells none is refused. */
module Grammar {
  import opened Prelude
  import opened Tree
  import opened Keys

  // ---- An index ---------------------------------------------------------

  function DigitChar(d: nat): char
    requires d < 10
  {
    ('0' as int + d) as char
  }

  function DigitText(n: nat): (t: string)
    ensures t != ""
  {
    if n < 10 then [DigitChar(n)] else DigitText(n / 10) + [DigitChar(n % 10)]
  }

  /** A number in decimal. */
  function IndexText(n: int): string {
    if n < 0 then "-" + DigitText(-n) else DigitText(n)
  }

  predicate AllDigits(t: string) {
    forall i | 0 <= i < |t| :: Digit(t[i])
  }

  lemma {:induction false} DigitsAll(t: string)
    ensures DigitsLen(t) == |t| <==> AllDigits(t)
  {
    if t != "" {
      DigitsAll(t[1..]);
      assert AllDigits(t[1..]) ==> forall i | 0 < i < |t| :: t[i] == t[1..][i - 1];
    }
  }

  lemma {:induction false} TextOfNumber(n: nat)
    ensures AllDigits(DigitText(n)) && Decimal(DigitText(n)) == n
    ensures DigitText(n)[0] == '0' <==> n == 0
    ensures n == 0 ==> DigitText(n) == "0"
  {
    var t := DigitText(n);
    if n >= 10 {
      TextOfNumber(n / 10);
      assert t[..|t| - 1] == DigitText(n / 10);
    } else {
      assert t[..0] == "" && Decimal(t[..|t| - 1]) == 0;
    }
  }

  lemma {:induction false} DecimalIsNat(t: string)
    requires AllDigits(t)
    ensures Decimal(t) >= 0 && (t != "" && t[0] != '0' ==> Decimal(t) > 0)
  {
    if t != "" {
      DecimalIsNat(t[..|t| - 1]);
      if |t| > 1 {
        assert t[..|t| - 1][0] == t[0];
      }
    }
  }

  /** Digits without a leading zero are the decimal text of their value. */
  lemma {:induction false} NumberOfText(t: string)
    requires t != "" && AllDigits(t) && (t == "0" || t[0] != '0')
    ensures Decimal(t) >= 0 && DigitText(Decimal(t)) == t
  {
    DecimalIsNat(t);
    var front, last := t[..|t| - 1], t[|t| - 1];
    assert t == front + [last];
    if |t| == 1 {
      assert front == "" && Decimal(front) == 0;
    } else {
      assert front[0] == t[0];
      NumberOfText(front);
      DecimalIsNat(front);
      assert Decimal(t) / 10 == Decimal(front);
    }
  }

  /** An index is the decimal text of an integer of 64 bits. */
  lemma IndexIs(s: string)
    ensures CanonicalIndex(s) <==> exists n :: -0x8000_0000_0000_0000 <= n < 0x8000_0000_0000_0000 && s == IndexText(n)
  {
    if CanonicalIndex(s) {
      var negative := s[0] == '-';
      var digits := if negative then s[1..] else s;
      DigitsAll(digits);
      NumberOfText(digits);
      var n := if negative then -Decimal(digits) else Decimal(digits);
      DecimalIsNat(digits);
      assert s == IndexText(n);
    }
    if n :| -0x8000_0000_0000_0000 <= n < 0x8000_0000_0000_0000 && s == IndexText(n) {
      var digits := DigitText(if n < 0 then -n else n);
      TextOfNumber(if n < 0 then -n else n);
      DigitsAll(digits);
      assert n < 0 ==> s[1..] == digits;
      assert n >= 0 ==> Digit(s[0]);
    }
  }

  // ---- A piece ----------------------------------------------------------

  /** The quote and the backslash are escaped, and nothing else. */
  function EscapedFor(q: char, seg: Seg): string {
    if seg == "" then "" else (if seg[0] == '\\' || seg[0] == q then ['\\', seg[0]] else [seg[0]]) + EscapedFor(q, seg[1..])
  }

  predicate IsQuote(q: char) {
    q == '\'' || q == '\"'
  }

  function Quoted(q: char, seg: Seg): string {
    "[" + ([q] + (EscapedFor(q, seg) + ([q] + "]")))
  }

  /** The three ways to write a segment: after a dot, which the first may do without; as an
      index; and quoted. */
  ghost predicate PieceSpells(p: string, seg: Seg, first: bool) {
    || (Bare(seg) && (p == "." + seg || (first && p == seg)))
    || (CanonicalIndex(seg) && p == "[" + (seg + "]"))
    || (exists q :: IsQuote(q) && p == Quoted(q, seg))
  }

  /** The text is the pieces of the address one after another. */
  ghost predicate Spells(t: string, a: Addr, first: bool)
    decreases |a|
  {
    if a == [] then t == ""
    else exists k :: 0 < k <= |t| && PieceSpells(t[..k], a[0], first) && Spells(t[k..], a[1..], false)
  }

  // ---- What is read is spelled ------------------------------------------

  lemma {:induction false} BareLenIs(t: string)
    ensures forall i | 0 <= i < BareLen(t) :: !EndsBare(t[i])
    ensures BareLen(t) < |t| ==> EndsBare(t[BareLen(t)])
  {
    if t != "" && !EndsBare(t[0]) {
      BareLenIs(t[1..]);
      assert forall i | 0 < i < BareLen(t) :: t[i] == t[1..][i - 1];
      assert BareLen(t) < |t| ==> t[BareLen(t)] == t[1..][BareLen(t[1..])];
    }
  }

  lemma {:induction false} QuotedIs(t: string, q: char)
    requires ParseQuoted(t, q).Some? && IsQuote(q)
    ensures t == EscapedFor(q, ParseQuoted(t, q).value.0) + ([q] + ParseQuoted(t, q).value.1)
  {
    var (seg, rest) := ParseQuoted(t, q).value;
    if t[0] == '\\' {
      QuotedIs(t[2..], q);
      var (more, _) := ParseQuoted(t[2..], q).value;
      assert seg == [t[1]] + more && seg[1..] == more;
      assert t == ['\\', t[1]] + t[2..];
      Regroup(['\\', t[1]], EscapedFor(q, more), [q] + rest);
    } else if t[0] == q {
      assert t == [q] + rest;
      assert EscapedFor(q, "") + ([q] + rest) == [q] + rest;
    } else {
      QuotedIs(t[1..], q);
      var (more, _) := ParseQuoted(t[1..], q).value;
      assert seg == [t[0]] + more && seg[1..] == more;
      assert t == [t[0]] + t[1..];
      Regroup([t[0]], EscapedFor(q, more), [q] + rest);
    }
  }

  lemma FrontSpells(t: string, first: bool)
    requires t != "" && ParseFront(t, first).Some?
    ensures var (seg, rest) := ParseFront(t, first).value;
      |rest| < |t| && t[|t| - |rest|..] == rest && PieceSpells(t[..|t| - |rest|], seg, first)
  {
    hide ParseQuoted, CanonicalIndex;
    var (seg, rest) := ParseFront(t, first).value;
    if t[0] == '[' {
      BracketSpells(t, first);
    } else if t[0] == '.' {
      BareLenIs(t[1..]);
      assert t == "." + seg + rest;
      assert t[..|t| - |rest|] == "." + seg;
    } else {
      BareLenIs(t);
      assert t == seg + rest;
      assert t[..|t| - |rest|] == seg;
    }
  }

  lemma BracketSpells(t: string, first: bool)
    requires t != "" && t[0] == '[' && ParseBracket(t[1..]).Some?
    ensures var (seg, rest) := ParseBracket(t[1..]).value;
      |rest| < |t| && t[|t| - |rest|..] == rest && PieceSpells(t[..|t| - |rest|], seg, first)
  {
    hide ParseQuoted, CanonicalIndex, EscapedFor;
    var u := t[1..];
    var (seg, rest) := ParseBracket(u).value;
    if u[0] == '\'' || u[0] == '\"' {
      var q := u[0];
      QuotedIs(u[1..], q);
      assert u[1..] == EscapedFor(q, seg) + ([q] + ("]" + rest));
      assert t == "[" + ([q] + u[1..]);
      assert t == Quoted(q, seg) + rest;
      assert t[..|t| - |rest|] == Quoted(q, seg);
    } else {
      assert u == seg + ("]" + rest);
      assert t == "[" + (seg + "]") + rest;
      assert t[..|t| - |rest|] == "[" + (seg + "]");
    }
  }

  // ---- What is spelled is read ------------------------------------------

  lemma {:induction false} DigitsRun(digits: string, tail: string)
    requires AllDigits(digits) && (tail == "" || !Digit(tail[0]))
    ensures DigitsLen(digits + tail) == |digits|
  {
    if digits == "" {
      assert digits + tail == tail;
    } else {
      assert (digits + tail)[1..] == digits[1..] + tail;
      DigitsRun(digits[1..], tail);
    }
  }

  lemma IndexReads(seg: Seg, tail: string)
    requires CanonicalIndex(seg)
    ensures ParseIndex(seg + ("]" + tail)) == Some((seg, "]" + tail))
    ensures seg[0] != '\'' && seg[0] != '\"'
  {
    var t := seg + ("]" + tail);
    var digits := if seg[0] == '-' then seg[1..] else seg;
    DigitsAll(digits);
    DigitsRun(digits, "]" + tail);
    assert seg[0] == '-' ==> t[1..] == digits + ("]" + tail);
    assert seg[0] != '-' ==> Digit(seg[0]);
    assert t[..|seg|] == seg && t[|seg|..] == "]" + tail;
  }

  lemma {:induction false} QuotesRead(q: char, seg: Seg, tail: string)
    requires IsQuote(q)
    ensures ParseQuoted(EscapedFor(q, seg) + ([q] + tail), q) == Some((seg, tail))
  {
    var t := EscapedFor(q, seg) + ([q] + tail);
    if seg == "" {
      assert t == [q] + tail && t[1..] == tail;
    } else {
      var more := EscapedFor(q, seg[1..]) + ([q] + tail);
      QuotesRead(q, seg[1..], tail);
      var one := if seg[0] == '\\' || seg[0] == q then ['\\', seg[0]] else [seg[0]];
      Regroup(one, EscapedFor(q, seg[1..]), [q] + tail);
      assert t == one + more;
      OneRead(q, seg[0], more);
      assert [seg[0]] + seg[1..] == seg;
    }
  }

  lemma OneRead(q: char, c: char, more: string)
    requires IsQuote(q)
    ensures ParseQuoted((if c == '\\' || c == q then ['\\', c] else [c]) + more, q) == Longer([c], ParseQuoted(more, q))
  {
    var t := (if c == '\\' || c == q then ['\\', c] else [c]) + more;
    if c == '\\' || c == q {
      assert t[2..] == more && t[1] == c;
    } else {
      assert t[1..] == more;
    }
  }

  lemma PieceIsRead(p: string, seg: Seg, first: bool, rest: string)
    requires PieceSpells(p, seg, first) && Ends(rest)
    ensures p + rest != "" && ParseFront(p + rest, first) == Some((seg, rest))
  {
    hide ParseQuoted, CanonicalIndex, EscapedFor, ParseBare, ParseIndex;
    var t := p + rest;
    if Bare(seg) && p == "." + seg {
      BareReads(seg, rest);
      assert t[1..] == seg + rest;
    } else if Bare(seg) && first && p == seg {
      BareReads(seg, rest);
    } else if CanonicalIndex(seg) && p == "[" + (seg + "]") {
      IndexReads(seg, rest);
      assert t[1..] == seg + ("]" + rest);
      assert ("]" + rest)[1..] == rest;
    } else {
      var q :| IsQuote(q) && p == Quoted(q, seg);
      QuotesRead(q, seg, "]" + rest);
      assert t[1..] == [q] + (EscapedFor(q, seg) + ([q] + ("]" + rest)));
      assert t[1..][1..] == EscapedFor(q, seg) + ([q] + ("]" + rest));
      assert ("]" + rest)[1..] == rest;
    }
  }

  lemma SpelledEnds(t: string, a: Addr)
    requires Spells(t, a, false)
    ensures Ends(t)
  {
    if a != [] {
      var k :| 0 < k <= |t| && PieceSpells(t[..k], a[0], false) && Spells(t[k..], a[1..], false);
      assert t[0] == t[..k][0];
    }
  }

  /** The parser reads a text as an address if and only if the text spells it. */
  lemma {:induction false} ParsedIsSpelled(t: string, first: bool, a: Addr)
    ensures Parse(t, first) == Some(a) <==> Spells(t, a, first)
    decreases |t|
  {
    hide PieceSpells, ParseFront;
    if Parse(t, first) == Some(a) && t != "" {
      FrontSpells(t, first);
      var (seg, rest) := ParseFront(t, first).value;
      var more := Parse(rest, false).value;
      assert a[1..] == more;
      ParsedIsSpelled(rest, false, more);
      assert PieceSpells(t[..|t| - |rest|], a[0], first);
    }
    if Spells(t, a, first) && a != [] {
      var k :| 0 < k <= |t| && PieceSpells(t[..k], a[0], first) && Spells(t[k..], a[1..], false);
      SpelledEnds(t[k..], a[1..]);
      PieceIsRead(t[..k], a[0], first, t[k..]);
      assert t[..k] + t[k..] == t;
      ParsedIsSpelled(t[k..], false, a[1..]);
      assert [a[0]] + a[1..] == a;
    }
  }

  // ---- Whole keys -------------------------------------------------------

  /** A head is not empty, holds neither dot nor bracket, and does not start as a directory
      does. */
  predicate IsHead(head: string) {
    && head != "" && head[0] != '/' && head[0] != '~'
    && forall i | 0 <= i < |head| :: head[i] != '.' && head[i] != '[' && head[i] != ']'
  }

  lemma HeadIs(key: string)
    ensures HeadOk(key[..HeadLen(key)]) <==> IsHead(key[..HeadLen(key)])
  {
    var head := key[..HeadLen(key)];
    if ']' !in head {
      forall i | 0 <= i < |head|
        ensures head[i] != ']'
      {
        assert head[i] in head;
      }
    }
  }

  /** A key is read as a head and an address if and only if it is a head and then spells
      the address; and the address is given in its canonical text. */
  lemma KeyIsSpelled(key: string, head: string, a: Addr)
    ensures SplitKey(key) == Some((head, Text(a))) <==> IsHead(head) && head <= key && Spells(key[|head|..], a, false)
  {
    hide Text, Parse, HeadOk, IsHead, Spells;
    var n := HeadLen(key);
    HeadIs(key);
    if SplitKey(key) == Some((head, Text(a))) {
      var b := Parse(key[n..], false).value;
      TextTellsApart(a, b);
      ParsedIsSpelled(key[n..], false, a);
    }
    if IsHead(head) && head <= key && Spells(key[|head|..], a, false) {
      var rest := key[|head|..];
      assert key == head + rest;
      SpelledGoesOn(rest, a);
      HeadBare(head);
      HeadRun(head, rest);
      assert key[..n] == head;
      ParsedIsSpelled(rest, false, a);
    }
  }

  lemma HeadBare(head: string)
    requires IsHead(head)
    ensures forall i | 0 <= i < |head| :: head[i] != '.' && head[i] != '['
  {
  }

  lemma SpelledGoesOn(t: string, a: Addr)
    requires Spells(t, a, false)
    ensures t == "" || GoesOn(t)
  {
    if a != [] {
      var k :| 0 < k <= |t| && PieceSpells(t[..k], a[0], false) && Spells(t[k..], a[1..], false);
      assert t[0] == t[..k][0];
    }
  }
}
