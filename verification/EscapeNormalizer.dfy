/** The escape normaliser of the smoke test helpers. A text is a sequence of UTF-16 code units. Collapsing one
    `\uHHHH` escape of an ASCII character is a rewrite step; the module proves that rewriting is terminating and
    confluent, and that the one-pass buffer algorithm computes the unique normal form. */
module EscapeNormalizer {

  newtype CodeUnit = c: int | 0 <= c < 0x1_0000
  type Text = seq<CodeUnit>

  const BACKSLASH: CodeUnit := 0x5c
  const UPPER_U: CodeUnit := 0x55
  const LOWER_U: CodeUnit := 0x75
  const ASCII_MAX: CodeUnit := 0x7f

  predicate IsHexDigit(c: CodeUnit) {
    0x30 <= c <= 0x39 || 0x41 <= c <= 0x46 || 0x61 <= c <= 0x66
  }

  function DigitValue(c: CodeUnit): (v: CodeUnit)
    requires IsHexDigit(c)
    ensures v < 16
  {
    if c <= 0x39 then c - 0x30 else if c <= 0x46 then c - 0x41 + 10 else c - 0x61 + 10
  }

  predicate IsHexQuad(w: Text) {
    |w| == 4 && forall k :: 0 <= k < 4 ==> IsHexDigit(w[k])
  }

  function ParseHexQuad(w: Text): CodeUnit
    requires IsHexQuad(w)
  {
    DigitValue(w[0]) * 0x1000 + DigitValue(w[1]) * 0x100 + DigitValue(w[2]) * 0x10 + DigitValue(w[3])
  }

  /** The code units whose lower case is `u`. */
  predicate LowersToU(c: CodeUnit) {
    c == LOWER_U || c == UPPER_U
  }

  /** An escape of an ASCII character starts at position `i` of `s`. */
  predicate EscapeAt(s: Text, i: int) {
    && 0 <= i && i + 6 <= |s|
    && s[i] == BACKSLASH
    && LowersToU(s[i + 1])
    && IsHexQuad(s[i + 2..i + 6])
    && ParseHexQuad(s[i + 2..i + 6]) <= ASCII_MAX
  }

  // ----- The rewriting system -----

  /** One rewrite step: the escape at `i` becomes the character it denotes. */
  function Collapse(s: Text, i: int): Text
    requires EscapeAt(s, i)
  {
    s[..i] + [ParseHexQuad(s[i + 2..i + 6])] + s[i + 6..]
  }

  ghost predicate Normal(s: Text) {
    forall i :: !EscapeAt(s, i)
  }

  /** Collapsing at the positions of `path`, one after the other, turns `s` into `t`. */
  ghost predicate Reduces(s: Text, path: seq<int>, t: Text)
    decreases |path|
  {
    if path == [] then s == t
    else EscapeAt(s, path[0]) && Reduces(Collapse(s, path[0]), path[1..], t)
  }

  /** Any normal form: the position of each step is left open. */
  ghost function NormalForm(s: Text): Text
    decreases |s|
  {
    if exists i :: EscapeAt(s, i) then
      var i :| EscapeAt(s, i);
      NormalForm(Collapse(s, i))
    else s
  }

  /** Only the first code unit of an escape is a backslash, so two escapes never overlap. */
  lemma EscapesNeverOverlap(s: Text, i: int)
    requires EscapeAt(s, i)
    ensures forall j :: i < j < i + 6 ==> !EscapeAt(s, j)
  {
    var quad := s[i + 2..i + 6];
    forall j | i + 1 < j < i + 6
      ensures s[j] != BACKSLASH
    {
      assert IsHexDigit(quad[j - i - 2]);
    }
  }

  /** Two different steps from the same text commute. */
  lemma Diamond(s: Text, i: int, j: int)
    requires EscapeAt(s, i) && EscapeAt(s, j) && i < j
    ensures j >= 6 && EscapeAt(Collapse(s, i), j - 5) && EscapeAt(Collapse(s, j), i)
    ensures Collapse(Collapse(s, i), j - 5) == Collapse(Collapse(s, j), i)
  {
    EscapesNeverOverlap(s, i);
    var a, b := Collapse(s, i), Collapse(s, j);
    assert a[j - 5..] == s[j..];
    assert a[j - 5 + 2..j - 5 + 6] == s[j + 2..j + 6];
    assert b[i + 2..i + 6] == s[i + 2..i + 6];
  }

  lemma {:induction false} ReductionLength(s: Text, path: seq<int>, t: Text)
    requires Reduces(s, path, t)
    ensures |s| == |t| + 5 * |path|
    decreases |path|
  {
    if path != [] {
      ReductionLength(Collapse(s, path[0]), path[1..], t);
    }
  }

  lemma {:induction false} NormalFormIsReached(s: Text) returns (path: seq<int>)
    ensures Reduces(s, path, NormalForm(s))
    ensures Normal(NormalForm(s))
    decreases |s|
  {
    if exists i :: EscapeAt(s, i) {
      var i :| EscapeAt(s, i) && NormalForm(s) == NormalForm(Collapse(s, i));
      var rest := NormalFormIsReached(Collapse(s, i));
      path := [i] + rest;
    } else {
      path := [];
    }
  }

  /** Confluence: all maximal reductions of a text end in the same text, after the same number of steps. */
  lemma {:induction false} Confluence(s: Text, p: seq<int>, t: Text, q: seq<int>, u: Text)
    requires Reduces(s, p, t) && Normal(t)
    requires Reduces(s, q, u) && Normal(u)
    ensures t == u && |p| == |q|
    decreases |s|
  {
    if p == [] || q == [] {
      assert p == [] && q == [];
    } else if p[0] == q[0] {
      Confluence(Collapse(s, p[0]), p[1..], t, q[1..], u);
    } else {
      var i, j := p[0], q[0];
      var i', j' := if i < j then i else i - 5, if i < j then j - 5 else j;
      if i < j { Diamond(s, i, j); } else { Diamond(s, j, i); }
      var a, b := Collapse(s, i), Collapse(s, j);
      var meet := Collapse(a, j');
      var rest := NormalFormIsReached(meet);
      var n := NormalForm(meet);
      assert ([j'] + rest)[1..] == rest && ([i'] + rest)[1..] == rest;
      Confluence(a, p[1..], t, [j'] + rest, n);
      Confluence(b, q[1..], u, [i'] + rest, n);
    }
  }

  /** Every maximal reduction ends in the normal form, and the length says how many steps it took. */
  lemma UniqueNormalForm(s: Text, path: seq<int>, t: Text)
    requires Reduces(s, path, t)
    ensures Normal(t) <==> t == NormalForm(s)
    ensures Normal(t) ==> |s| == |NormalForm(s)| + 5 * |path|
  {
    var canonical := NormalFormIsReached(s);
    if Normal(t) {
      Confluence(s, path, t, canonical, NormalForm(s));
      ReductionLength(s, path, t);
    }
  }

  /** Rewriting never leaves the class of a text: a text and its reducts have one normal form. */
  lemma {:induction false} ReductsShareNormalForm(s: Text, path: seq<int>, t: Text)
    requires Reduces(s, path, t)
    ensures NormalForm(s) == NormalForm(t)
  {
    var rest := NormalFormIsReached(t);
    ReductionsCompose(s, path, t, rest, NormalForm(t));
    UniqueNormalForm(s, path + rest, NormalForm(t));
  }

  lemma {:induction false} ReductionsCompose(s: Text, p: seq<int>, t: Text, q: seq<int>, u: Text)
    requires Reduces(s, p, t) && Reduces(t, q, u)
    ensures Reduces(s, p + q, u)
    decreases |p|
  {
    if p == [] {
      assert p + q == q;
    } else {
      assert (p + q)[1..] == p[1..] + q;
      ReductionsCompose(Collapse(s, p[0]), p[1..], t, q, u);
    }
  }

  lemma NormalFormIsIdempotent(s: Text)
    ensures NormalForm(NormalForm(s)) == NormalForm(s)
  {
    var path := NormalFormIsReached(s);
    ReductsShareNormalForm(s, path, NormalForm(s));
  }

  // ----- Escapes inside a longer text -----

  lemma EscapeInContext(a: Text, s: Text, b: Text, i: int)
    requires EscapeAt(s, i)
    ensures EscapeAt(a + s + b, |a| + i)
    ensures Collapse(a + s + b, |a| + i) == a + Collapse(s, i) + b
  {
    var whole := a + s + b;
    assert whole[|a| + i + 2..|a| + i + 6] == s[i + 2..i + 6];
  }

  lemma {:induction false} ReducesInContext(
    a: Text, s: Text, b: Text, path: seq<int>, t: Text)
    returns (shifted: seq<int>)
    requires Reduces(s, path, t)
    ensures |shifted| == |path| && Reduces(a + s + b, shifted, a + t + b)
    decreases |path|
  {
    if path == [] {
      shifted := [];
    } else {
      EscapeInContext(a, s, b, path[0]);
      var rest := ReducesInContext(a, Collapse(s, path[0]), b, path[1..], t);
      shifted := [|a| + path[0]] + rest;
    }
  }

  /** Normalising a piece of a text first does not change the normal form of the whole. */
  lemma NormalisingAPieceFirst(a: Text, s: Text, b: Text)
    ensures NormalForm(a + NormalForm(s) + b) == NormalForm(a + s + b)
  {
    var path := NormalFormIsReached(s);
    var shifted := ReducesInContext(a, s, b, path, NormalForm(s));
    ReductsShareNormalForm(a + s + b, shifted, a + NormalForm(s) + b);
  }

  // ----- Hiding a text behind escapes, and finding it again -----

  function HexDigit(v: CodeUnit): CodeUnit
    requires v < 16
  {
    if v < 10 then 0x30 + v else 0x61 + v - 10
  }

  /** Writes the ASCII characters selected by `chosen` as escapes. */
  function Escaped(s: Text, chosen: seq<bool>): Text
    requires |chosen| == |s|
    decreases |s|
  {
    if s == [] then []
    else
      (if chosen[0] && s[0] <= ASCII_MAX
       then [BACKSLASH, LOWER_U, 0x30, 0x30, HexDigit(s[0] / 16), HexDigit(s[0] % 16)]
       else [s[0]]) + Escaped(s[1..], chosen[1..])
  }

  lemma EscapedCharacter(c: CodeUnit)
    requires c <= ASCII_MAX
    ensures var w: Text := [BACKSLASH, LOWER_U, 0x30, 0x30, HexDigit(c / 16), HexDigit(c % 16)];
            EscapeAt(w, 0) && Collapse(w, 0) == [c]
  {
    var w: Text := [BACKSLASH, LOWER_U, 0x30, 0x30, HexDigit(c / 16), HexDigit(c % 16)];
    assert w[2..6] == [0x30, 0x30, HexDigit(c / 16), HexDigit(c % 16)];
    assert DigitValue(HexDigit(c / 16)) == c / 16 && DigitValue(HexDigit(c % 16)) == c % 16;
  }

  /** Round trip: escaping any choice of characters is undone by normalisation. */
  lemma {:induction false} EscapingIsUndone(s: Text, chosen: seq<bool>)
    requires |chosen| == |s|
    ensures NormalForm(Escaped(s, chosen)) == NormalForm(s)
  {
    var path := EscapedReduces(s, chosen);
    ReductsShareNormalForm(Escaped(s, chosen), path, s);
  }

  lemma EscapeFirst(c: CodeUnit, tail: Text, path: seq<int>, s: Text)
    requires c <= ASCII_MAX && Reduces([c] + tail, path, s)
    ensures Reduces([BACKSLASH, LOWER_U, 0x30, 0x30, HexDigit(c / 16), HexDigit(c % 16)] + tail, [0] + path, s)
  {
    var w: Text := [BACKSLASH, LOWER_U, 0x30, 0x30, HexDigit(c / 16), HexDigit(c % 16)];
    EscapedCharacter(c);
    EscapeInContext([], w, tail, 0);
    assert [] + w + tail == w + tail && [] + [c] + tail == [c] + tail && ([0] + path)[1..] == path;
  }

  lemma {:induction false} EscapedReduces(s: Text, chosen: seq<bool>) returns (path: seq<int>)
    requires |chosen| == |s|
    ensures Reduces(Escaped(s, chosen), path, s)
    decreases |s|
  {
    if s == [] {
      path := [];
    } else {
      var rest := EscapedReduces(s[1..], chosen[1..]);
      var tail := Escaped(s[1..], chosen[1..]);
      assert s == [s[0]] + s[1..];
      var shifted := ReducesInContext([s[0]], tail, [], rest, s[1..]);
      assert [s[0]] + tail + [] == [s[0]] + tail && [s[0]] + s[1..] + [] == s;
      if chosen[0] && s[0] <= ASCII_MAX {
        EscapeFirst(s[0], tail, shifted, s);
        path := [0] + shifted;
      } else {
        path := shifted;
      }
    }
  }

  // ----- What an escape is, written out -----

  /** The code unit is the hexadecimal digit of value `v`, in either case. */
  predicate SpellsDigit(d: CodeUnit, v: int) {
    || (0 <= v < 10 && d as int == 0x30 + v)
    || (10 <= v < 16 && d as int == 0x41 + v - 10)
    || (10 <= v < 16 && d as int == 0x61 + v - 10)
  }

  /** Six code units that spell an ASCII character: a backslash, a `u` of either case, two zeros and two digits. */
  predicate Spells(w: Text, c: CodeUnit) {
    && |w| == 6 && c <= 0x7f
    && w[0] == 0x5c && (w[1] == 0x55 || w[1] == 0x75)
    && w[2] == 0x30 && w[3] == 0x30
    && SpellsDigit(w[4], c as int / 16) && SpellsDigit(w[5], c as int % 16)
  }

  ghost predicate SpellsSome(w: Text) {
    exists c :: Spells(w, c)
  }

  ghost predicate BecomesWhatItSpells(s: Text, i: nat, w: Text)
    requires i + 6 <= |s|
  {
    forall c :: Spells(w, c) ==> EscapeAt(s, i) && Collapse(s, i) == s[..i] + [c] + s[i + 6..]
  }

  lemma DigitsAreSpelled(d: CodeUnit)
    ensures IsHexDigit(d) <==> exists v :: SpellsDigit(d, v)
    ensures IsHexDigit(d) ==> SpellsDigit(d, DigitValue(d) as int)
    ensures forall v :: SpellsDigit(d, v) ==> IsHexDigit(d) && DigitValue(d) as int == v
  {
    assert IsHexDigit(d) ==> SpellsDigit(d, DigitValue(d) as int);
  }

  /** What is collapsed is exactly what spells an ASCII character, and it becomes that character. */
  lemma EscapesAreSpellings(s: Text, i: int)
    ensures EscapeAt(s, i) <==> 0 <= i && i + 6 <= |s| && SpellsSome(s[i..i + 6])
    ensures 0 <= i && i + 6 <= |s| ==> BecomesWhatItSpells(s, i, s[i..i + 6])
  {
    if 0 <= i && i + 6 <= |s| {
      var w, quad := s[i..i + 6], s[i + 2..i + 6];
      assert quad[0] == w[2] && quad[1] == w[3] && quad[2] == w[4] && quad[3] == w[5];
      DigitsAreSpelled(w[2]);
      DigitsAreSpelled(w[3]);
      DigitsAreSpelled(w[4]);
      DigitsAreSpelled(w[5]);
      if EscapeAt(s, i) {
        ZerosFirst(quad);
        assert Spells(w, ParseHexQuad(quad));
      }
      forall c | Spells(w, c)
        ensures EscapeAt(s, i) && ParseHexQuad(quad) == c
      {
        QuadOfDigits(quad, c);
      }
    }
  }

  lemma ZerosFirst(quad: Text)
    requires IsHexQuad(quad) && ParseHexQuad(quad) <= 0x7f
    ensures DigitValue(quad[0]) == 0 && DigitValue(quad[1]) == 0
    ensures ParseHexQuad(quad) as int / 16 == DigitValue(quad[2]) as int && ParseHexQuad(quad) as int % 16 == DigitValue(quad[3]) as int
  {
  }

  lemma QuadOfDigits(quad: Text, c: CodeUnit)
    requires IsHexQuad(quad) && DigitValue(quad[0]) == 0 && DigitValue(quad[1]) == 0
    requires DigitValue(quad[2]) as int == c as int / 16 && DigitValue(quad[3]) as int == c as int % 16
    ensures ParseHexQuad(quad) == c
  {
  }

  /** Wherever a spelling stands, the normal form is that of the text with the character in its place. */
  lemma SpellingsAreCollapsed(a: Text, w: Text, c: CodeUnit, b: Text)
    requires Spells(w, c)
    ensures NormalForm(a + w + b) == NormalForm(a + [c] + b)
  {
    var s, i := a + w + b, |a|;
    assert s[i..i + 6] == w && s[..i] == a && s[i + 6..] == b;
    EscapesAreSpellings(s, i);
    assert Reduces(s, [i], a + [c] + b) by {
      assert [i][1..] == [];
    }
    ReductsShareNormalForm(s, [i], a + [c] + b);
  }

  /** And nothing is left that spells an ASCII character. */
  lemma NormalFormSpellsNothing(s: Text, i: nat, c: CodeUnit)
    requires i + 6 <= |NormalForm(s)|
    ensures !Spells(NormalForm(s)[i..i + 6], c)
  {
    var path := NormalFormIsReached(s);
    EscapesAreSpellings(NormalForm(s), i);
  }

  // ----- The one-pass algorithm -----

  /** Every window of the buffer but the last one is free of escapes. */
  ghost predicate NormalBelowTop(buffer: Text) {
    forall i :: 0 <= i && i + 6 < |buffer| ==> !EscapeAt(buffer, i)
  }

  lemma PushKeepsNormalBelowTop(buffer: Text, value: Text, index: nat)
    requires Normal(buffer) && index < |value|
    ensures NormalBelowTop(buffer + [value[index]])
    ensures buffer + [value[index]] + value[index + 1..] == buffer + value[index..]
  {
    var c := value[index];
    forall i | 0 <= i && i + 6 < |buffer + [c]|
      ensures !EscapeAt(buffer + [c], i)
    {
      assert (buffer + [c])[i + 2..i + 6] == buffer[i + 2..i + 6];
      assert !EscapeAt(buffer, i);
    }
  }

  lemma CollapseKeepsNormalBelowTop(buffer: Text, start: int)
    requires |buffer| == start + 6 && EscapeAt(buffer, start) && NormalBelowTop(buffer)
    ensures NormalBelowTop(Collapse(buffer, start))
  {
    var after := Collapse(buffer, start);
    forall i | 0 <= i && i + 6 < |after|
      ensures !EscapeAt(after, i)
    {
      assert after[i + 2..i + 6] == buffer[i + 2..i + 6];
      assert !EscapeAt(buffer, i);
    }
  }

  /** The tests that the algorithm makes on the last six code units decide whether they are an escape. */
  lemma TopWindow(buffer: Text, start: int)
    requires 0 <= start && |buffer| == start + 6
    ensures
      var hex := buffer[start + 2..];
      if buffer[start] == BACKSLASH && LowersToU(buffer[start + 1]) && IsHexQuad(hex) && ParseHexQuad(hex) <= ASCII_MAX
      then EscapeAt(buffer, start) && Collapse(buffer, start) == buffer[..start] + [ParseHexQuad(hex)]
      else !EscapeAt(buffer, start)
  {
    assert buffer[start + 2..] == buffer[start + 2..start + 6];
  }

  lemma NoEscapeAtTop(buffer: Text)
    requires NormalBelowTop(buffer) && !EscapeAt(buffer, |buffer| - 6)
    ensures Normal(buffer)
  {
    forall i
      ensures !EscapeAt(buffer, i)
    {
      assert i + 6 < |buffer| || i + 6 == |buffer| || i + 6 > |buffer|;
    }
  }

  lemma CollapseAtTop(buffer: Text, rest: Text, start: int)
    requires |buffer| == start + 6 && EscapeAt(buffer, start)
    ensures NormalForm(Collapse(buffer, start) + rest) == NormalForm(buffer + rest)
  {
    EscapeInContext([], buffer, rest, start);
    var next := Collapse(buffer, start) + rest;
    assert [] + buffer + rest == buffer + rest && [] + Collapse(buffer, start) + rest == next;
    assert Reduces(next, [start][1..], next);
    ReductsShareNormalForm(buffer + rest, [start], next);
  }

  lemma NormalIsItsOwnNormalForm(s: Text)
    requires Normal(s)
    ensures NormalForm(s) == s
  {
  }

  /** Pushes one code unit at a time and collapses the escape that ends at the top of the buffer, as long as there
      is one. */
  method SecurityNormalizeAsciiEscapes(value: Text) returns (normalized: Text)
    ensures Normal(normalized)
    ensures normalized == NormalForm(value)
  {
    normalized := [];
    ghost var target := NormalForm(value);
    assert [] + value[0..] == value;
    for index := 0 to |value|
      invariant Normal(normalized)
      invariant NormalForm(normalized + value[index..]) == target
    {
      ghost var rest := value[index + 1..];
      PushKeepsNormalBelowTop(normalized, value, index);
      normalized := normalized + [value[index]];
      while |normalized| >= 6
        invariant NormalForm(normalized + rest) == target
        invariant NormalBelowTop(normalized)
      {
        var escapeStart := |normalized| - 6;
        TopWindow(normalized, escapeStart);
        if normalized[escapeStart] != BACKSLASH || !LowersToU(normalized[escapeStart + 1]) {
          break;
        }
        var hex := normalized[escapeStart + 2..];
        if !IsHexQuad(hex) {
          break;
        }
        var codeUnit := ParseHexQuad(hex);
        if codeUnit > ASCII_MAX {
          break;
        }
        CollapseAtTop(normalized, rest, escapeStart);
        CollapseKeepsNormalBelowTop(normalized, escapeStart);
        normalized := normalized[..escapeStart];
        normalized := normalized + [codeUnit];
      }
      NoEscapeAtTop(normalized);
    }
    assert normalized + value[|value|..] == normalized;
    NormalIsItsOwnNormalForm(normalized);
  }
}
