/** A model of the Unix flavour of java.nio.file.Path as far as the vendor
    logic uses it: parsing a string into a path (Paths.get), resolving one
    path against another (Path.resolve), printing a path back
    (Path.toString), and the separator normalisation of toUnixString.

    A path is a flag saying whether it is absolute plus its name elements.
    Parsing drops the empty runs between separators, which is how a Unix
    path normalises "a//b" and "a/" to "a/b" and "a". */
module UnixPaths {

  const Separator: char := '/'
  const Backslash: char := '\\'

  /** Index of the first separator in `s`, or `|s|` when there is none. */
  function FirstSeparator(s: string): (k: nat)
    ensures k <= |s|
    ensures forall i :: 0 <= i < k ==> s[i] != Separator
    ensures k < |s| ==> s[k] == Separator
  {
    if |s| == 0 || s[0] == Separator then 0 else 1 + FirstSeparator(s[1..])
  }

  /** A name element of a path: non-empty and free of separators. */
  predicate IsElement(e: string) {
    |e| > 0 && Separator !in e
  }

  /** The name elements of `s`: its maximal separator-free runs, in order. */
  function Elements(s: string): (es: seq<string>)
    ensures forall i :: 0 <= i < |es| ==> IsElement(es[i])
    decreases |s|
  {
    if |s| == 0 then []
    else if s[0] == Separator then Elements(s[1..])
    else
      var k := FirstSeparator(s);
      assert Separator !in s[..k];
      [s[..k]] + Elements(s[k..])
  }

  /** The elements written one after the other with a separator between. */
  function Join(es: seq<string>): string {
    if |es| == 0 then ""
    else if |es| == 1 then es[0]
    else es[0] + "/" + Join(es[1..])
  }

  datatype Path = Path(absolute: bool, elements: seq<string>)

  /** Paths.get(s) on a Unix file system. Every element of the result is a
      proper name element, and a non-empty string without separators is a
      relative path of that one element. */
  function Parse(s: string): (p: Path)
    ensures forall i :: 0 <= i < |p.elements| ==> IsElement(p.elements[i])
    ensures |s| > 0 && Separator !in s ==> p == Path(false, [s])
  {
    assert |s| > 0 && Separator !in s ==> Elements(s) == [s] by {
      if |s| > 0 && Separator !in s { ElementsWithoutSeparator(s); }
    }
    Path(|s| > 0 && s[0] == Separator, Elements(s))
  }

  /** Path.resolve(other): an absolute `other` replaces `p`, a relative one
      is appended to it. */
  function Resolve(p: Path, other: Path): (r: Path)
    ensures other.absolute ==> r == other
    ensures !other.absolute ==> r.absolute == p.absolute && |r.elements| == |p.elements| + |other.elements|
  {
    if other.absolute then other else Path(p.absolute, p.elements + other.elements)
  }

  /** Resolving never loses the path resolved: the result ends with its
      elements, and when it is relative they follow those of `p`. */
  lemma ResolveEndsWith(p: Path, other: Path)
    ensures var r := Resolve(p, other);
      && |other.elements| <= |r.elements|
      && r.elements[|r.elements| - |other.elements|..] == other.elements
      && (!other.absolute ==> r.elements[..|p.elements|] == p.elements)
  {
  }

  /** Path.toString() on a Unix file system. An absolute path prints with a
      leading separator, and no backslash appears that was not in an
      element. */
  function Print(p: Path): (s: string)
    ensures p.absolute ==> |s| > 0 && s[0] == Separator
    ensures (forall i :: 0 <= i < |p.elements| ==> Backslash !in p.elements[i]) ==> Backslash !in s
  {
    assert (forall i :: 0 <= i < |p.elements| ==> Backslash !in p.elements[i]) ==> Backslash !in Join(p.elements) by {
      if forall i :: 0 <= i < |p.elements| ==> Backslash !in p.elements[i] { JoinFreeOfBackslash(p.elements); }
    }
    (if p.absolute then "/" else []) + Join(p.elements)
  }

  /** toUnixString: every backslash becomes a forward slash, nothing else
      changes. What a backslash becomes is stated apart, by
      `ToUnixStringSlashes`. */
  function ToUnixString(s: string): (r: string)
    ensures |r| == |s|
    ensures Backslash !in r
    ensures forall i :: 0 <= i < |s| && s[i] != Backslash ==> r[i] == s[i]
  {
    seq(|s|, i requires 0 <= i < |s| => if s[i] == Backslash then Separator else s[i])
  }

  /** A relative path in normal form, as it is stored for a vendor
      dependency: non-empty, no leading, trailing or doubled separator, and
      no backslash. */
  predicate IsNormalRelative(s: string) {
    && |s| > 0
    && s[0] != Separator
    && s[|s| - 1] != Separator
    && (forall i :: 0 <= i < |s| - 1 ==> !DoubledAt(s, i))
    && Backslash !in s
  }

  /** Positions `i` and `i + 1` of `s` both hold a separator. */
  predicate DoubledAt(s: string, i: nat)
    requires i + 1 < |s|
  {
    s[i] == Separator && s[i + 1] == Separator
  }

  /** toUnixString leaves a backslash-free string alone; in particular it is
      idempotent, so applying it again to a stored path changes nothing. */
  lemma ToUnixStringFixes(s: string)
    requires Backslash !in s
    ensures ToUnixString(s) == s
  {
  }

  /** Every backslash of the input becomes a forward slash. */
  lemma ToUnixStringSlashes(s: string)
    ensures forall i :: 0 <= i < |s| && s[i] == Backslash ==> ToUnixString(s)[i] == Separator
  {
  }

  lemma ToUnixStringIdempotent(s: string)
    ensures ToUnixString(ToUnixString(s)) == ToUnixString(s)
  {
    ToUnixStringFixes(ToUnixString(s));
  }

  /** Joining two non-empty element lists is joining their joins. */
  lemma {:induction false} JoinConcat(a: seq<string>, b: seq<string>)
    requires |a| > 0 && |b| > 0
    ensures Join(a + b) == Join(a) + "/" + Join(b)
    decreases |a|
  {
    if |a| == 1 {
      assert (a + b)[1..] == b;
    } else {
      assert (a + b)[1..] == a[1..] + b;
      JoinConcat(a[1..], b);
    }
  }

  /** Parsing a normal relative path and printing it back gives the same
      string; the path is relative and has at least one element. */
  lemma NormalParsePrint(s: string)
    requires IsNormalRelative(s)
    ensures !Parse(s).absolute
    ensures |Parse(s).elements| > 0
    ensures Print(Parse(s)) == s
  {
    JoinElementsOfNormal(s);
    assert Print(Parse(s)) == Join(Elements(s));
  }

  /** The elements of a normal relative path join back to it. */
  lemma {:induction false} JoinElementsOfNormal(s: string)
    requires IsNormalRelative(s)
    ensures |Elements(s)| > 0
    ensures Join(Elements(s)) == s
    decreases |s|
  {
    var k := FirstSeparator(s);
    if k == |s| {
      ElementsWithoutSeparator(s);
    } else {
      var t := s[k + 1..];
      ElementsAtSeparator(s, k);
      SplitAtSeparator(s, k);
      NormalAfterSeparator(s, k);
      JoinElementsOfNormal(t);
      JoinCons(s[..k], Elements(t));
    }
  }

  /** Joining an element in front of a non-empty list. */
  lemma JoinCons(e: string, es: seq<string>)
    requires |es| > 0
    ensures Join([e] + es) == e + "/" + Join(es)
  {
    assert ([e] + es)[1..] == es;
  }

  /** A non-empty string without separators is its own single element. */
  lemma ElementsWithoutSeparator(s: string)
    requires |s| > 0 && FirstSeparator(s) == |s|
    ensures Elements(s) == [s]
  {
    assert s[0] != Separator;
    assert s[|s|..] == [];
    assert s[..|s|] == s;
  }

  /** Splitting at the first separator: the first element is what comes
      before it, the rest are the elements of what comes after it. */
  lemma ElementsAtSeparator(s: string, k: nat)
    requires |s| > 0 && s[0] != Separator
    requires k == FirstSeparator(s) && k < |s|
    ensures Elements(s) == [s[..k]] + Elements(s[k + 1..])
  {
    var u := s[k..];
    assert Elements(s) == [s[..k]] + Elements(u);
    assert Elements(u) == Elements(u[1..]);
    assert u[1..] == s[k + 1..];
  }

  /** A string is what comes before a separator, the separator, and what
      comes after it. */
  lemma SplitAtSeparator(s: string, k: nat)
    requires k < |s| && s[k] == Separator
    ensures s == s[..k] + "/" + s[k + 1..]
  {
    var r := s[..k] + "/" + s[k + 1..];
    assert |r| == |s|;
    forall i | 0 <= i < |s| ensures r[i] == s[i] {
      if i < k {
        assert r[i] == s[..k][i];
      } else if i > k {
        assert r[i] == s[k + 1..][i - k - 1];
      }
    }
  }

  /** What follows a separator in a normal relative path is one too. */
  lemma NormalAfterSeparator(s: string, k: nat)
    requires IsNormalRelative(s)
    requires k < |s| && s[k] == Separator
    ensures IsNormalRelative(s[k + 1..])
  {
    var t := s[k + 1..];
    assert !DoubledAt(s, k);
    assert forall j :: 0 <= j < |t| ==> t[j] == s[k + 1 + j];
    forall j | 0 <= j < |t| - 1 ensures !DoubledAt(t, j) {
      assert !DoubledAt(s, k + 1 + j);
    }
    assert Backslash !in t by {
      forall j | 0 <= j < |t| ensures t[j] != Backslash {
        assert t[j] == s[k + 1 + j];
      }
    }
  }

  /** Parsing undoes printing for every path whose elements are elements. */
  lemma {:induction false} ParsePrint(p: Path)
    requires forall i :: 0 <= i < |p.elements| ==> IsElement(p.elements[i])
    ensures Parse(Print(p)) == p
  {
    ElementsOfJoin(p.elements);
    if p.absolute {
      var j := Join(p.elements);
      assert Print(p) == "/" + j;
      assert ("/" + j)[1..] == j;
    } else {
      assert Print(p) == Join(p.elements);
      if |p.elements| > 0 {
        assert Join(p.elements)[0] == p.elements[0][0];
      }
    }
  }

  /** The elements of a join are the joined elements. */
  lemma {:induction false} ElementsOfJoin(es: seq<string>)
    requires forall i :: 0 <= i < |es| ==> IsElement(es[i])
    ensures Elements(Join(es)) == es
    ensures |es| > 0 ==> |Join(es)| > 0 && Join(es)[0] == es[0][0]
    decreases |es|
  {
    if |es| == 0 {
    } else {
      var a := es[0];
      assert IsElement(a);
      if |es| == 1 {
        assert FirstSeparator(a) == |a|;
        assert a[|a|..] == [];
        assert a[..|a|] == a;
      } else {
        var rest := Join(es[1..]);
        var s := a + "/" + rest;
        assert forall i :: 0 <= i < |a| ==> s[i] == a[i];
        assert s[|a|] == Separator;
        assert FirstSeparator(s) == |a|;
        assert s[..|a|] == a;
        assert s[|a|..][1..] == rest;
        ElementsOfJoin(es[1..]);
        assert [a] + es[1..] == es;
      }
    }
  }

  /** Two normal relative paths joined by a separator form a normal
      relative path. */
  lemma NormalConcat(a: string, b: string)
    requires IsNormalRelative(a) && IsNormalRelative(b)
    ensures IsNormalRelative(a + "/" + b)
  {
    var s := a + "/" + b;
    forall i | 0 <= i < |s| - 1
      ensures !DoubledAt(s, i)
    {
      if i < |a| - 1 {
        assert !DoubledAt(a, i);
        assert s[i] == a[i] && s[i + 1] == a[i + 1];
      } else if i == |a| - 1 {
        assert s[i] == a[i];
      } else if i == |a| {
        assert s[i + 1] == b[0];
      } else {
        assert !DoubledAt(b, i - |a| - 1);
        assert s[i] == b[i - |a| - 1] && s[i + 1] == b[i - |a|];
      }
    }
    assert Backslash !in s by {
      forall i | 0 <= i < |s| ensures s[i] != Backslash {
        if i < |a| {
          assert s[i] == a[i];
        } else if i > |a| {
          assert s[i] == b[i - |a| - 1];
        }
      }
    }
  }

  /** Resolving one normal relative path against another and storing the
      result as a Unix string yields the two strings with a separator
      between, again in normal form. */
  lemma ResolveNormal(a: string, b: string)
    requires IsNormalRelative(a) && IsNormalRelative(b)
    ensures ToUnixString(Print(Resolve(Parse(a), Parse(b)))) == a + "/" + b
    ensures IsNormalRelative(a + "/" + b)
  {
    var c := a + "/" + b;
    ParseNormalConcat(a, b);
    NormalParsePrint(c);
    ToUnixStringFixes(c);
  }

  /** The same for a path resolved against two normal relative paths in
      turn. */
  lemma ResolveNormalTwice(a: string, b: string, c: string)
    requires IsNormalRelative(a) && IsNormalRelative(b) && IsNormalRelative(c)
    ensures ToUnixString(Print(Resolve(Resolve(Parse(a), Parse(b)), Parse(c))))
      == a + "/" + b + "/" + c
    ensures IsNormalRelative(a + "/" + b + "/" + c)
  {
    ParseNormalConcat(a, b);
    ResolveNormal(a + "/" + b, c);
  }

  /** Parsing two normal relative paths joined by a separator is resolving
      the second against the first. */
  lemma ParseNormalConcat(a: string, b: string)
    requires IsNormalRelative(a) && IsNormalRelative(b)
    ensures Parse(a + "/" + b) == Resolve(Parse(a), Parse(b))
    ensures IsNormalRelative(a + "/" + b)
  {
    ElementsNormalConcat(a, b);
    NormalConcat(a, b);
    assert (a + "/" + b)[0] == a[0];
  }

  /** The elements of two normal relative paths joined by a separator are
      the elements of the first followed by those of the second. */
  lemma ElementsNormalConcat(a: string, b: string)
    requires IsNormalRelative(a) && IsNormalRelative(b)
    ensures Elements(a + "/" + b) == Elements(a) + Elements(b)
  {
    JoinElementsOfNormal(a);
    JoinElementsOfNormal(b);
    var ea, eb := Elements(a), Elements(b);
    JoinConcat(ea, eb);
    ElementsOfJoin(ea + eb);
  }

  lemma SeparatedAssoc(a: string, b: string, c: string)
    ensures a + "/" + b + "/" + c == a + "/" + (b + "/" + c)
  {
  }

  /** Every element of a backslash-free string is backslash-free. */
  lemma {:induction false} ElementsFreeOfBackslash(s: string)
    requires Backslash !in s
    ensures forall i :: 0 <= i < |Elements(s)| ==> Backslash !in Elements(s)[i]
    decreases |s|
  {
    if |s| == 0 {
    } else if s[0] == Separator {
      assert Backslash !in s[1..] by {
        forall j | 0 <= j < |s| - 1 ensures s[1..][j] != Backslash {
          assert s[1..][j] == s[j + 1];
        }
      }
      ElementsFreeOfBackslash(s[1..]);
    } else {
      var k := FirstSeparator(s);
      assert Backslash !in s[..k] by {
        forall j | 0 <= j < k ensures s[..k][j] != Backslash {
          assert s[..k][j] == s[j];
        }
      }
      assert Backslash !in s[k..] by {
        forall j | 0 <= j < |s| - k ensures s[k..][j] != Backslash {
          assert s[k..][j] == s[k + j];
        }
      }
      ElementsFreeOfBackslash(s[k..]);
    }
  }

  /** A path whose elements are proper name elements free of backslashes. */
  predicate Clean(p: Path) {
    forall i :: 0 <= i < |p.elements| ==> IsElement(p.elements[i]) && Backslash !in p.elements[i]
  }

  lemma ParseClean(s: string)
    requires Backslash !in s
    ensures Clean(Parse(s))
  {
    ElementsFreeOfBackslash(s);
  }

  lemma ResolveClean(p: Path, other: Path)
    requires Clean(p) && Clean(other)
    ensures Clean(Resolve(p, other))
  {
  }

  /** A clean path printed as a Unix string reads back as itself. */
  lemma CleanReadsBack(p: Path)
    requires Clean(p)
    ensures Parse(ToUnixString(Print(p))) == p
  {
    JoinFreeOfBackslash(p.elements);
    assert Backslash !in Print(p);
    ToUnixStringFixes(Print(p));
    ParsePrint(p);
  }

  /** A join of backslash-free strings is backslash-free. */
  lemma {:induction false} JoinFreeOfBackslash(es: seq<string>)
    requires forall i :: 0 <= i < |es| ==> Backslash !in es[i]
    ensures Backslash !in Join(es)
    decreases |es|
  {
    if |es| > 1 {
      JoinFreeOfBackslash(es[1..]);
    }
  }
}
