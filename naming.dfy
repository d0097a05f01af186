/**
 * The global constructor name of a UI component (`createValidName`, identical in
 * rollup.config.js, scripts/rollup/vue.js and scripts/rollup/react.js): "Cef",
 * then every non-empty `/`-segment of the plugin path and the component name,
 * each with its first character upper-cased.
 */
module Naming {
  import opened Strings

  /** `part.charAt(0).toUpperCase() + part.slice(1)`. */
  function Capitalize(part: string): (r: string)
    ensures |r| == |part|
    ensures |part| > 0 ==> r[0] == UpperChar(part[0]) && r[1..] == part[1..]
  {
    if |part| == 0 then "" else [UpperChar(part[0])] + part[1..]
  }

  /** `pluginPath ? pluginPath.split('/').filter(Boolean) : []`. */
  function Segments(pluginPath: string): seq<string>
  {
    if pluginPath == "" then [] else NonEmpty(Split(pluginPath, '/'))
  }

  /** `parts.map(Capitalize).join('')`. */
  function CapJoin(parts: seq<string>): string
  {
    if |parts| == 0 then "" else Capitalize(parts[0]) + CapJoin(parts[1..])
  }

  /** `createValidName(name, pluginPath)` as the scripts write it. */
  function CreateValidName(name: string, pluginPath: string): string
  {
    "Cef" + CapJoin(Segments(pluginPath) + [name])
  }

  lemma {:induction false} CapJoinAppend(a: seq<string>, b: seq<string>)
    ensures CapJoin(a + b) == CapJoin(a) + CapJoin(b)
    decreases |a|
  {
    if |a| == 0 {
      assert a + b == b;
    } else {
      assert (a + b)[1..] == a[1..] + b;
      CapJoinAppend(a[1..], b);
    }
  }

  /** A path without a slash is one segment, or none when it is empty. */
  lemma SegmentsOfPlain(a: string)
    requires '/' !in a
    ensures Segments(a) == if a == "" then [] else [a]
  {
    if a != "" {
      SplitNoSeparator(a, '/');
      assert NonEmpty([a]) == [a] + NonEmpty([]);
    }
  }

  /** The segments of `a + "/" + b` are those of `a` followed by those of `b`. */
  lemma SegmentsOfNested(a: string, b: string)
    ensures Segments(a + "/" + b) == Segments(a) + Segments(b)
  {
    assert a + "/" + b == a + ['/'] + b;
    SplitConcat(a, b, '/');
    NonEmptyAppend(Split(a, '/'), Split(b, '/'));
    if a == "" {
      assert Split(a, '/') == [""];
    }
    if b == "" {
      assert Split(b, '/') == [""];
    }
  }

  /** The segments of a path written as a `/`-join are its non-empty pieces. */
  lemma {:induction false} SegmentsOfJoin(pieces: seq<string>)
    requires forall i :: 0 <= i < |pieces| ==> '/' !in pieces[i]
    ensures Segments(Join(pieces, "/")) == NonEmpty(pieces)
    decreases |pieces|
  {
    if |pieces| == 1 {
      SegmentsOfPlain(pieces[0]);
    } else if |pieces| > 1 {
      SegmentsOfJoin(pieces[1..]);
      SegmentsOfNested(pieces[0], Join(pieces[1..], "/"));
      SegmentsOfPlain(pieces[0]);
      NonEmptyAppend([pieces[0]], pieces[1..]);
      assert [pieces[0]] + pieces[1..] == pieces;
    }
  }

  /**
   * The constructor name of a component whose plugin path is the `/`-join of
   * `pieces`: "Cef", then every non-empty piece and the name, capitalised.
   */
  lemma ValidNameOfPath(name: string, pieces: seq<string>)
    requires forall i :: 0 <= i < |pieces| ==> '/' !in pieces[i]
    ensures CreateValidName(name, Join(pieces, "/"))
         == "Cef" + CapJoin(NonEmpty(pieces)) + Capitalize(name)
  {
    SegmentsOfJoin(pieces);
    ValidNameOfSegments(name, Join(pieces, "/"));
  }

  lemma ValidNameOfSegments(name: string, path: string)
    ensures CreateValidName(name, path) == "Cef" + CapJoin(Segments(path)) + Capitalize(name)
  {
    CapJoinAppend(Segments(path), [name]);
    assert CapJoin([name]) == Capitalize(name) + CapJoin([]);
  }

  /** Without a plugin path the name is "Cef" and the capitalised component name. */
  lemma ValidNameWithoutPath(name: string)
    ensures CreateValidName(name, "") == "Cef" + Capitalize(name)
  {
    assert Segments("") + [name] == [name];
    assert CapJoin([name]) == Capitalize(name) + CapJoin([]);
  }

  /** Not injective: a capital inside a segment reads like a segment boundary. */
  lemma ValidNameCollision()
    ensures ("C", "aB") != ("bC", "a")
    ensures CreateValidName("C", "aB") == CreateValidName("bC", "a") == "CefABC"
  {
    SegmentsOfPlain("aB");
    SegmentsOfPlain("a");
    assert CapJoin(["aB", "C"]) == "AB" + CapJoin(["C"]);
    assert CapJoin(["a", "bC"]) == "A" + CapJoin(["bC"]);
  }

  /** Not injective: empty segments vanish and first letters are case-folded. */
  lemma ValidNamePathCollisions()
    ensures CreateValidName("X", "a//b") == CreateValidName("X", "a/b")
    ensures CreateValidName("X", "a") == CreateValidName("X", "A")
  {
    ValidNameOfPath("X", ["a", "", "b"]);
    ValidNameOfPath("X", ["a", "b"]);
    assert Join(["a", "", "b"], "/") == "a//b";
    assert Join(["a", "b"], "/") == "a/b";
    assert NonEmpty(["a", "", "b"]) == ["a", "b"];
    SegmentsOfPlain("a");
    SegmentsOfPlain("A");
  }

  /** A part whose capitalised form marks its own start: [a-z] then no capitals. */
  predicate WellFormedPart(p: string)
  {
    |p| >= 1 && IsAsciiLower(p[0]) && forall i :: 1 <= i < |p| ==> !IsAsciiUpper(p[i])
  }

  predicate AllWellFormed(parts: seq<string>)
  {
    forall i :: 0 <= i < |parts| ==> WellFormedPart(parts[i])
  }

  lemma CapJoinStartsUpper(parts: seq<string>)
    requires AllWellFormed(parts) && |parts| > 0
    ensures |CapJoin(parts)| > 0 && IsAsciiUpper(CapJoin(parts)[0])
  {
    assert WellFormedPart(parts[0]);
  }

  lemma CapitalizedHeads(p: string, q: string, x: string, y: string)
    requires WellFormedPart(p) && WellFormedPart(q)
    requires x == "" || IsAsciiUpper(x[0])
    requires y == "" || IsAsciiUpper(y[0])
    requires |p| <= |q|
    requires Capitalize(p) + x == Capitalize(q) + y
    ensures p == q && x == y
  {
    var lhs, rhs := Capitalize(p) + x, Capitalize(q) + y;
    assert Capitalize(p) == lhs[..|p|] == rhs[..|q|] == Capitalize(q);
    assert p[1..] == q[1..];
    assert UpperChar(p[0]) == UpperChar(q[0]);
    assert p == [p[0]] + p[1..] && q == [q[0]] + q[1..];
  }

  lemma {:induction false} CapJoinInjective(ps: seq<string>, qs: seq<string>)
    requires AllWellFormed(ps) && AllWellFormed(qs)
    requires CapJoin(ps) == CapJoin(qs)
    ensures ps == qs
    decreases |ps|
  {
    if |ps| == 0 {
      if |qs| > 0 { CapJoinStartsUpper(qs); }
    } else if |qs| == 0 {
      CapJoinStartsUpper(ps);
    } else {
      assert WellFormedPart(ps[0]) && WellFormedPart(qs[0]);
      var x, y := CapJoin(ps[1..]), CapJoin(qs[1..]);
      if |ps[1..]| > 0 { CapJoinStartsUpper(ps[1..]); }
      if |qs[1..]| > 0 { CapJoinStartsUpper(qs[1..]); }
      if |ps[0]| <= |qs[0]| {
        CapitalizedHeads(ps[0], qs[0], x, y);
      } else {
        CapitalizedHeads(qs[0], ps[0], y, x);
      }
      CapJoinInjective(ps[1..], qs[1..]);
      assert ps == [ps[0]] + ps[1..] && qs == [qs[0]] + qs[1..];
    }
  }

  /**
   * Injective once every part is one lower-case letter followed by no capitals:
   * equal names then come from the same segments and the same component name.
   */
  lemma ValidNameInjective(n1: string, p1: string, n2: string, p2: string)
    requires AllWellFormed(Segments(p1) + [n1]) && AllWellFormed(Segments(p2) + [n2])
    requires CreateValidName(n1, p1) == CreateValidName(n2, p2)
    ensures Segments(p1) == Segments(p2) && n1 == n2
  {
    var a, b := Segments(p1) + [n1], Segments(p2) + [n2];
    assert CapJoin(a) == CreateValidName(n1, p1)[3..] == CreateValidName(n2, p2)[3..] == CapJoin(b);
    CapJoinInjective(a, b);
    assert n1 == a[|a| - 1] && n2 == b[|b| - 1];
    assert Segments(p1) == a[..|a| - 1] && Segments(p2) == b[..|b| - 1];
  }

  // ---------------------------------------------------------------------------
  // The name as an identifier. The scripts comment that the result is "a valid
  // JS identifier", but a segment such as `my-plugin` keeps its hyphen.
  // ---------------------------------------------------------------------------

  /** ASCII identifier characters of JavaScript (letters, digits, `_`, `$`). */
  predicate IsIdentifierChar(c: char)
  {
    IsAsciiUpper(c) || IsAsciiLower(c) || IsAsciiDigit(c) || c == '_' || c == '$'
  }

  predicate AllIdentifierChars(s: string)
  {
    forall i :: 0 <= i < |s| ==> IsIdentifierChar(s[i])
  }

  /** A JavaScript identifier (ASCII subset): no leading digit, identifier characters only. */
  predicate IsIdentifier(s: string)
  {
    |s| >= 1 && !IsAsciiDigit(s[0]) && AllIdentifierChars(s)
  }

  /** The as-written name of a component of plugin `my-plugin` is not an identifier. */
  lemma ValidNameNotIdentifier()
    ensures !IsIdentifier(CreateValidName("Chat", "my-plugin"))
  {
    SegmentsOfPlain("my-plugin");
    var r := CreateValidName("Chat", "my-plugin");
    assert r == "Cef" + Capitalize("my-plugin") + CapJoin(["Chat"]);
    assert r[5] == '-';
  }

  /** The maximal runs of identifier characters of `s`, in order. */
  function Runs(s: string): (r: seq<string>)
    ensures |s| > 0 && IsIdentifierChar(s[0]) ==> |r| > 0 && |r[0]| > 0 && r[0][0] == s[0]
  {
    if |s| == 0 then []
    else if !IsIdentifierChar(s[0]) then Runs(s[1..])
    else
      var rest := Runs(s[1..]);
      if |s| > 1 && IsIdentifierChar(s[1]) then [[s[0]] + rest[0]] + rest[1..]
      else [[s[0]]] + rest
  }

  /** A string made only of identifier characters is its own single run. */
  lemma {:induction false} RunsOfIdentifier(s: string)
    requires s != "" && AllIdentifierChars(s)
    ensures Runs(s) == [s]
    decreases |s|
  {
    if |s| > 1 {
      RunsOfIdentifier(s[1..]);
      assert [s[0]] + s[1..] == s;
    } else {
      assert Runs(s[1..]) == [];
      assert s == [s[0]];
    }
  }

  /** The identifier words of a list of parts: the runs of each part, in order. */
  function Words(parts: seq<string>): seq<string>
  {
    if |parts| == 0 then [] else Runs(parts[0]) + Words(parts[1..])
  }

  /** Runs are non-empty and made of identifier characters only. */
  lemma {:induction false} RunsAreIdentifiers(s: string)
    ensures forall i :: 0 <= i < |Runs(s)| ==> Runs(s)[i] != "" && AllIdentifierChars(Runs(s)[i])
    decreases |s|
  {
    if |s| > 0 {
      RunsAreIdentifiers(s[1..]);
      var rest := Runs(s[1..]);
      if IsIdentifierChar(s[0]) && |s| > 1 && IsIdentifierChar(s[1]) {
        var w := [s[0]] + rest[0];
        assert AllIdentifierChars(w) by {
          forall k | 0 <= k < |w| ensures IsIdentifierChar(w[k]) {
            if k > 0 { assert w[k] == rest[0][k - 1]; }
          }
        }
      }
    }
  }

  lemma {:induction false} WordsAreIdentifiers(parts: seq<string>)
    ensures forall i :: 0 <= i < |Words(parts)| ==> Words(parts)[i] != "" && AllIdentifierChars(Words(parts)[i])
    decreases |parts|
  {
    if |parts| > 0 {
      RunsAreIdentifiers(parts[0]);
      WordsAreIdentifiers(parts[1..]);
    }
  }

  /**
   * `createValidName` as its comment intends it ("convert to camelCase and
   * ensure it's a valid JS identifier"): every run of characters that cannot
   * appear in an identifier separates words, like `/` does.
   */
  function CreateIdentifier(name: string, pluginPath: string): string
  {
    "Cef" + CapJoin(Words(Segments(pluginPath) + [name]))
  }

  lemma {:induction false} CapJoinKeepsIdentifierChars(parts: seq<string>)
    requires forall i :: 0 <= i < |parts| ==> AllIdentifierChars(parts[i])
    ensures AllIdentifierChars(CapJoin(parts))
    decreases |parts|
  {
    if |parts| > 0 {
      CapJoinKeepsIdentifierChars(parts[1..]);
      var c := Capitalize(parts[0]);
      assert AllIdentifierChars(c) by {
        forall i | 0 <= i < |c| ensures IsIdentifierChar(c[i]) {
          if i > 0 { assert c[i] == c[1..][i - 1] == parts[0][i]; }
        }
      }
    }
  }

  /** The corrected name is always a JavaScript identifier. */
  lemma IdentifierIsValid(name: string, pluginPath: string)
    ensures IsIdentifier(CreateIdentifier(name, pluginPath))
  {
    var ws := Words(Segments(pluginPath) + [name]);
    WordsAreIdentifiers(Segments(pluginPath) + [name]);
    CapJoinKeepsIdentifierChars(ws);
    var r := CreateIdentifier(name, pluginPath);
    assert r == "Cef" + CapJoin(ws);
    forall i | 0 <= i < |r| ensures IsIdentifierChar(r[i]) {
      if i >= 3 { assert r[i] == CapJoin(ws)[i - 3]; }
    }
  }

  lemma {:induction false} WordsOfIdentifierParts(parts: seq<string>)
    requires forall i :: 0 <= i < |parts| ==> AllIdentifierChars(parts[i])
    ensures CapJoin(Words(parts)) == CapJoin(parts)
    decreases |parts|
  {
    if |parts| > 0 {
      WordsOfIdentifierParts(parts[1..]);
      if parts[0] == "" {
        assert Runs(parts[0]) == [];
        assert Words(parts) == Words(parts[1..]);
      } else {
        RunsOfIdentifier(parts[0]);
        assert Words(parts) == [parts[0]] + Words(parts[1..]);
      }
    }
  }

  /** On paths and names made of identifier characters the correction changes nothing. */
  lemma IdentifierAgreesWithValidName(name: string, pluginPath: string)
    requires AllIdentifierChars(name)
    requires forall i :: 0 <= i < |pluginPath| ==> IsIdentifierChar(pluginPath[i]) || pluginPath[i] == '/'
    ensures CreateIdentifier(name, pluginPath) == CreateValidName(name, pluginPath)
  {
    var parts := Segments(pluginPath) + [name];
    forall i | 0 <= i < |parts| ensures AllIdentifierChars(parts[i]) {
      if i < |parts| - 1 {
        SegmentChars(pluginPath, parts[i]);
      }
    }
    WordsOfIdentifierParts(parts);
  }

  lemma SegmentChars(pluginPath: string, seg: string)
    requires forall i :: 0 <= i < |pluginPath| ==> IsIdentifierChar(pluginPath[i]) || pluginPath[i] == '/'
    requires seg in Segments(pluginPath)
    ensures AllIdentifierChars(seg)
  {
    SplitChars(pluginPath, seg);
  }

  lemma {:induction false} SplitChars(s: string, piece: string)
    requires forall i :: 0 <= i < |s| ==> IsIdentifierChar(s[i]) || s[i] == '/'
    requires piece in Split(s, '/')
    ensures AllIdentifierChars(piece)
    decreases |s|
  {
    if |s| > 0 {
      var tail := Split(s[1..], '/');
      if s[0] == '/' {
        if piece != "" { SplitChars(s[1..], piece); }
      } else if piece == [s[0]] + tail[0] {
        SplitChars(s[1..], tail[0]);
      } else {
        SplitChars(s[1..], piece);
      }
    }
  }
}
