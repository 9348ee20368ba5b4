/**
 * String helpers: `Array.prototype.join`, the cutting of a dotted path into
 * keys that lodash `get` performs, the decimal rendering of a non-negative
 * integer inside a template literal, and the occurrence predicates and XML
 * builders the descriptor's layout is stated with. Strings are sequences of
 * characters.
 */
module Text {

  /** `pieces.join(sep)`: the pieces with one separator between neighbours. */
  function Join(pieces: seq<string>, sep: char): string
    decreases |pieces|
  {
    if |pieces| == 0 then ""
    else if |pieces| == 1 then pieces[0]
    else pieces[0] + [sep] + Join(pieces[1..], sep)
  }

  /**
   * The runs between separators, in order. The list is never empty, but its
   * pieces may be: "" and "a..b" both give an empty piece. With `sep` = '.' this is
   * how lodash `get` cuts a string path into keys, for paths made of dots and
   * plain keys; its bracket and quote syntax is not modelled.
   */
  function Split(s: string, sep: char): (r: seq<string>)
    ensures |r| > 0
    decreases |s|
  {
    if s == [] then [""]
    else
      var rest := Split(s[1..], sep);
      if s[0] == sep then [""] + rest
      else [[s[0]] + rest[0]] + rest[1..]
  }

  lemma {:induction false} SplitWithout(s: string, sep: char)
    requires sep !in s
    ensures Split(s, sep) == [s]
    decreases |s|
  {
    if s != [] {
      SplitWithout(s[1..], sep);
      assert [s[0]] + s[1..] == s;
    }
  }

  /** No piece of a split holds the separator. */
  lemma {:induction false} SplitPieces(s: string, sep: char)
    ensures forall i :: 0 <= i < |Split(s, sep)| ==> sep !in Split(s, sep)[i]
    decreases |s|
  {
    if s != [] {
      SplitPieces(s[1..], sep);
    }
  }

  /** Splitting `x + sep + rest` cuts at the first separator, which ends `x`. */
  lemma {:induction false} SplitAtFirst(x: string, sep: char, rest: string)
    requires sep !in x
    ensures Split(x + [sep] + rest, sep) == [x] + Split(rest, sep)
    decreases |x|
  {
    var s := x + [sep] + rest;
    if x == [] {
      assert s[0] == sep && s[1..] == rest;
    } else {
      assert s[1..] == x[1..] + [sep] + rest;
      SplitAtFirst(x[1..], sep, rest);
      assert [x[0]] + x[1..] == x;
    }
  }

  /** Joining pieces free of the separator and splitting again gives the pieces back. */
  lemma {:induction false} SplitJoin(pieces: seq<string>, sep: char)
    requires |pieces| > 0
    requires forall i :: 0 <= i < |pieces| ==> sep !in pieces[i]
    ensures Split(Join(pieces, sep), sep) == pieces
    decreases |pieces|
  {
    if |pieces| == 1 {
      SplitWithout(pieces[0], sep);
    } else {
      SplitJoin(pieces[1..], sep);
      SplitAtFirst(pieces[0], sep, Join(pieces[1..], sep));
      assert [pieces[0]] + pieces[1..] == pieces;
    }
  }

  /** Splitting and joining again gives the string back, whatever it holds. */
  lemma {:induction false} JoinSplit(s: string, sep: char)
    ensures Join(Split(s, sep), sep) == s
    decreases |s|
  {
    if s != [] {
      var rest := Split(s[1..], sep);
      JoinSplit(s[1..], sep);
      if s[0] == sep {
        assert ([""] + rest)[1..] == rest;
      } else {
        var r := [[s[0]] + rest[0]] + rest[1..];
        assert r[1..] == rest[1..];
        assert [s[0]] + s[1..] == s;
      }
    }
  }

  /** The pieces joined with a separator are pieces[..n-1] joined, the separator, the last piece. */
  lemma {:induction false} JoinSnoc(pieces: seq<string>, last: string, sep: char)
    requires |pieces| > 0
    ensures Join(pieces + [last], sep) == Join(pieces, sep) + [sep] + last
    decreases |pieces|
  {
    var p := pieces + [last];
    if |pieces| > 1 {
      assert p[1..] == pieces[1..] + [last];
      JoinSnoc(pieces[1..], last, sep);
    } else {
      assert p[1..] == [last];
    }
  }

  const Digits: string := "0123456789"

  /** The decimal rendering of `n`, as `${n}` produces it. */
  function NatToString(n: nat): (r: string)
    ensures 0 < |r|
    ensures forall i :: 0 <= i < |r| ==> r[i] in Digits
    decreases n
  {
    if n < 10 then [Digits[n]] else NatToString(n / 10) + [Digits[n % 10]]
  }

  /** Distinct numbers render differently: identifiers built from them never clash. */
  lemma {:induction false} NatToStringInjective(a: nat, b: nat)
    ensures NatToString(a) == NatToString(b) ==> a == b
    decreases a
  {
    var s := NatToString(a);
    if a >= 10 && b >= 10 && s == NatToString(b) {
      var n := |s|;
      assert Digits[a % 10] == s[n - 1] == Digits[b % 10];
      assert a % 10 == b % 10;
      assert NatToString(a / 10) == s[..n - 1] == NatToString(b / 10);
      NatToStringInjective(a / 10, b / 10);
    }
  }

  /** `x` stands in `s` from position `p` on. */
  predicate OccursAt(s: string, x: string, p: nat)
  {
    p + |x| <= |s| && s[p..p + |x|] == x
  }

  predicate Contains(s: string, x: string)
  {
    exists p: nat | p <= |s| :: OccursAt(s, x, p)
  }

  /** Some occurrence of `x` in `s` ends before some occurrence of `y` starts. */
  predicate Before(s: string, x: string, y: string)
  {
    exists p: nat, q: nat | p <= q <= |s| :: OccursAt(s, x, p) && OccursAt(s, y, q) && p + |x| <= q
  }

  /** The parts of a template written one after the other. */
  function Concat(parts: seq<string>): string
    decreases |parts|
  {
    if parts == [] then "" else Concat(parts[..|parts| - 1]) + parts[|parts| - 1]
  }

  lemma {:induction false} ConcatAppend(a: seq<string>, b: seq<string>)
    ensures Concat(a + b) == Concat(a) + Concat(b)
    decreases |b|
  {
    if b == [] {
      assert a + b == a;
    } else {
      var n := |b|;
      var ab := a + b;
      assert ab[..|ab| - 1] == a + b[..n - 1] && ab[|ab| - 1] == b[n - 1];
      ConcatAppend(a, b[..n - 1]);
      calc {
        Concat(ab);
        Concat(a + b[..n - 1]) + b[n - 1];
        (Concat(a) + Concat(b[..n - 1])) + b[n - 1];
        Concat(a) + (Concat(b[..n - 1]) + b[n - 1]);
      }
    }
  }

  /** Part k of a template stands in the result right after the parts before it. */
  lemma PartOccurs(parts: seq<string>, k: nat)
    requires k < |parts|
    ensures OccursAt(Concat(parts), parts[k], |Concat(parts[..k])|)
  {
    var before, after := parts[..k], parts[k + 1..];
    assert parts == before + [parts[k]] + after;
    ConcatAppend(before + [parts[k]], after);
    ConcatAppend(before, [parts[k]]);
    assert Concat([parts[k]]) == parts[k] by { assert [parts[k]][..0] == []; }
    var s := Concat(parts);
    var p := |Concat(before)|;
    assert s == Concat(before) + parts[k] + Concat(after);
    assert s[p..p + |parts[k]|] == parts[k];
  }

  /** Every part of a template occurs in the result. */
  lemma PartContained(parts: seq<string>, k: nat, x: string)
    requires k < |parts| && parts[k] == x
    ensures Contains(Concat(parts), x)
  {
    PartOccurs(parts, k);
  }

  /** The text of the first j + 1 parts ends where the text of part j ends. */
  lemma PrefixEnd(parts: seq<string>, j: nat, k: nat)
    requires j < k <= |parts|
    ensures |Concat(parts[..j])| + |parts[j]| <= |Concat(parts[..k])|
  {
    assert parts[..j + 1][..j] == parts[..j];
    assert parts[..k] == parts[..j + 1] + parts[j + 1..k];
    ConcatAppend(parts[..j + 1], parts[j + 1..k]);
  }

  /** An earlier part of a template ends before a later part starts. */
  lemma PartsInOrder(parts: seq<string>, j: nat, k: nat, x: string, y: string)
    requires j < k < |parts| && parts[j] == x && parts[k] == y
    ensures Before(Concat(parts), x, y)
  {
    PartOccurs(parts, j);
    PartOccurs(parts, k);
    PrefixEnd(parts, j, k);
    var p, q := |Concat(parts[..j])|, |Concat(parts[..k])|;
    assert OccursAt(Concat(parts), x, p) && OccursAt(Concat(parts), y, q);
  }

  /** Text inside a part of a template ends before text inside a later part starts. */
  lemma PartsInOrderWithin(parts: seq<string>, j: nat, k: nat, x: string, y: string)
    requires j < k < |parts| && Contains(parts[j], x) && Contains(parts[k], y)
    ensures Before(Concat(parts), x, y)
  {
    var s := Concat(parts);
    PartOccurs(parts, j);
    PartOccurs(parts, k);
    PrefixEnd(parts, j, k);
    var a, b := |Concat(parts[..j])|, |Concat(parts[..k])|;
    var p: nat :| p <= |parts[j]| && OccursAt(parts[j], x, p);
    var q: nat :| q <= |parts[k]| && OccursAt(parts[k], y, q);
    OccursWithin(s, parts[j], x, a, p);
    OccursWithin(s, parts[k], y, b, q);
  }

  /** An occurrence inside an occurrence is an occurrence. */
  lemma OccursWithin(s: string, t: string, x: string, a: nat, p: nat)
    requires OccursAt(s, t, a) && OccursAt(t, x, p)
    ensures OccursAt(s, x, a + p)
  {
    forall i | 0 <= i < |x|
      ensures s[a + p + i] == x[i]
    {
      assert s[a..a + |t|][p + i] == t[p + i];
      assert t[p..p + |x|][i] == x[i];
    }
    assert s[a + p..a + p + |x|] == x;
  }

  /** Containment is transitive. */
  lemma ContainsWithin(s: string, t: string, x: string)
    requires Contains(s, t) && Contains(t, x)
    ensures Contains(s, x)
  {
    var a: nat :| a <= |s| && OccursAt(s, t, a);
    var p: nat :| p <= |t| && OccursAt(t, x, p);
    OccursWithin(s, t, x, a, p);
  }

  /** Text in order inside a piece of a text is in order in the text. */
  lemma BeforeWithin(s: string, t: string, x: string, y: string)
    requires Contains(s, t) && Before(t, x, y)
    ensures Before(s, x, y)
  {
    var a: nat :| a <= |s| && OccursAt(s, t, a);
    var p: nat, q: nat :| p <= q <= |t| && OccursAt(t, x, p) && OccursAt(t, y, q) && p + |x| <= q;
    OccursWithin(s, t, x, a, p);
    OccursWithin(s, t, y, a, q);
  }

  lemma ContainsSelf(s: string)
    ensures Contains(s, s)
  {
    assert OccursAt(s, s, 0) by { assert s[0..|s|] == s; }
  }

  /** A template whose parts all lack a character yields a text that lacks it. */
  lemma {:induction false} ConcatWithout(parts: seq<string>, c: char)
    requires forall k :: 0 <= k < |parts| ==> c !in parts[k]
    ensures c !in Concat(parts)
    decreases |parts|
  {
    if parts != [] {
      ConcatWithout(parts[..|parts| - 1], c);
    }
  }

  /** `name="value"`, an XML attribute. */
  function Attribute(name: string, value: string): string
  {
    name + "=\"" + value + "\""
  }

  /** `<tag>content</tag>`, an XML element on one line. */
  function Element(tag: string, content: string): string
  {
    "<" + tag + ">" + content + "</" + tag + ">"
  }

  /** n spaces. */
  function Spaces(n: nat): (r: string)
    ensures |r| == n && forall k :: 0 <= k < n ==> r[k] == ' '
  {
    if n == 0 then "" else Spaces(n - 1) + " "
  }

  /** A line break followed by n spaces of indentation. */
  function Indent(n: nat): string
  {
    "\n" + Spaces(n)
  }

  /** An element with text content on a new line indented by n spaces. */
  function Field(n: nat, tag: string, content: string): string
  {
    Indent(n) + Element(tag, content)
  }
}
