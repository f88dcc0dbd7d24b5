/**
 * Rewriting of path templates (`/users/{id}`) into the router's capture
 * syntax (`/users/:id`), as `toColon` does with `path.replace(/{(.*?)}/g, …)`.
 *
 * The regular-expression scan is modelled as a segmentation of the path into
 * single literal characters and template segments; the rewrite then renders
 * each template `{name}` as `:name` and every literal unchanged.
 */
module PathTemplate {
  import opened Outcomes

  datatype Segment = Literal(c: char) | Template(name: string)

  /** The characters that `.` in a JavaScript regular expression does not match. */
  predicate IsLineTerminator(c: char) {
    c == '\n' || c == '\r' || c == '\U{2028}' || c == '\U{2029}'
  }

  /** A character the lazy `(.*?)` group can take before it reaches the first `}`. */
  predicate InName(c: char) {
    c != '}' && !IsLineTerminator(c)
  }

  /** The text after a `{` holds a `}` that `.*?` can reach, i.e. one with no line terminator before it. */
  ghost predicate Closes(t: string) {
    exists j :: 0 <= j < |t| && t[j] == '}' && forall k :: 0 <= k < j ==> !IsLineTerminator(t[k])
  }

  /** `s` holds a `{` from which the pattern matches. */
  ghost predicate HasTemplate(s: string) {
    exists i :: 0 <= i < |s| && s[i] == '{' && Closes(s[i + 1..])
  }

  /** Where the lazy group stops: the first `}`, provided no line terminator comes before it. */
  function CloseIndex(t: string): (r: Option<nat>)
    ensures r.Some? ==> r.value < |t| && t[r.value] == '}' && forall k :: 0 <= k < r.value ==> InName(t[k])
    ensures r.None? <==> !Closes(t)
    decreases |t|
  {
    if t == [] then None
    else if t[0] == '}' then Some(0)
    else if IsLineTerminator(t[0]) then None
    else
      var rest := CloseIndex(t[1..]);
      assert Closes(t) ==> Closes(t[1..]) by {
        if Closes(t) {
          var j :| 0 <= j < |t| && t[j] == '}' && forall k :: 0 <= k < j ==> !IsLineTerminator(t[k]);
          assert t[1..][j - 1] == '}';
        }
      }
      match rest
      case None => None
      case Some(j) => Some(j + 1)
  }

  /** The global, leftmost, non-greedy scan of `/{(.*?)}/g` over `s`. */
  function Scan(s: string): (segs: seq<Segment>)
    ensures |segs| <= |s|
    ensures segs == [] <==> s == []
    ensures s != [] && s[0] != '{' ==> segs[0] == Literal(s[0])
    decreases |s|
  {
    if s == [] then []
    else if s[0] == '{' && CloseIndex(s[1..]).Some? then
      var j := CloseIndex(s[1..]).value;
      [Template(s[1..1 + j])] + Scan(s[2 + j..])
    else
      [Literal(s[0])] + Scan(s[1..])
  }

  /** The text a segmentation was read from: templates in their `{name}` form. */
  function Braced(segs: seq<Segment>): string
    decreases |segs|
  {
    if segs == [] then []
    else
      (match segs[0]
       case Literal(c) => [c]
       case Template(n) => "{" + n + "}") + Braced(segs[1..])
  }

  /** The router's form of a segmentation: templates as `:name`. */
  function Colon(segs: seq<Segment>): string
    decreases |segs|
  {
    if segs == [] then []
    else
      (match segs[0]
       case Literal(c) => [c]
       case Template(n) => ":" + n) + Colon(segs[1..])
  }

  /** The number of templates in a segmentation. */
  function TemplateCount(segs: seq<Segment>): nat
    decreases |segs|
  {
    if segs == [] then 0
    else (if segs[0].Template? then 1 else 0) + TemplateCount(segs[1..])
  }

  /**
   * A segmentation that the leftmost non-greedy scan could have produced:
   * template names stop at the first `}` and hold no line terminator, and a
   * `{` is kept as a literal only when no `}` can be reached after it.
   */
  ghost predicate WellFormed(segs: seq<Segment>)
    decreases |segs|
  {
    segs == [] ||
    ((match segs[0]
      case Template(n) => forall k :: 0 <= k < |n| ==> InName(n[k])
      case Literal(c) => c == '{' ==> !Closes(Braced(segs[1..])))
     && WellFormed(segs[1..]))
  }

  /** `toColon`: every `{name}` becomes `:name`; all other text is kept in order. */
  function ToColon(path: string): (r: string)
    ensures |r| + TemplateCount(Scan(path)) == |path|
    ensures r == path <==> !HasTemplate(path)
  {
    ScanRoundTrip(path);
    ColonLength(Scan(path));
    ScanFindsTemplates(path);
    ColonWithoutTemplates(Scan(path));
    Colon(Scan(path))
  }

  /** The scan loses and reorders nothing: reading the segments back gives the path. */
  lemma {:induction false} ScanRoundTrip(s: string)
    ensures Braced(Scan(s)) == s
    decreases |s|
  {
    if s == [] {
    } else if s[0] == '{' && CloseIndex(s[1..]).Some? {
      var j := CloseIndex(s[1..]).value;
      var n, tail := s[1..1 + j], Scan(s[2 + j..]);
      assert s[1 + j] == s[1..][j] == '}';
      calc {
        Braced(Scan(s));
        Braced([Template(n)] + tail);
        { Concatenation([Template(n)], tail); }
        "{" + n + "}" + Braced(tail);
        { ScanRoundTrip(s[2 + j..]); }
        "{" + n + "}" + s[2 + j..];
        { Wrapped(s, j); }
        s;
      }
    } else {
      var tail := Scan(s[1..]);
      calc {
        Braced(Scan(s));
        Braced([Literal(s[0])] + tail);
        { Concatenation([Literal(s[0])], tail); }
        [s[0]] + Braced(tail);
        { ScanRoundTrip(s[1..]); }
        [s[0]] + s[1..];
        s;
      }
    }
  }

  /** The scan is leftmost and non-greedy. */
  lemma {:induction false} ScanWellFormed(s: string)
    ensures WellFormed(Scan(s))
    decreases |s|
  {
    if s == [] {
    } else if s[0] == '{' && CloseIndex(s[1..]).Some? {
      var j := CloseIndex(s[1..]).value;
      ScanWellFormed(s[2 + j..]);
      var n := s[1..1 + j];
      assert forall k :: 0 <= k < |n| ==> n[k] == s[1..][k];
    } else {
      ScanWellFormed(s[1..]);
      ScanRoundTrip(s[1..]);
    }
  }

  /** A `{`, the text up to a `}` at `1 + j`, that `}`, and the rest make up the whole text. */
  lemma Wrapped(s: string, j: nat)
    requires 2 + j <= |s| && s[0] == '{' && s[1 + j] == '}'
    ensures "{" + s[1..1 + j] + "}" + s[2 + j..] == s
  {
    assert s == s[..1] + s[1..1 + j] + s[1 + j..2 + j] + s[2 + j..];
  }

  /** Inside a written-out template `{n}rest`, the name and the rest sit where the scan looks for them. */
  lemma Unwrapped(s: string, n: string, rest: string)
    requires s == "{" + n + "}" + rest
    ensures s[1..] == n + "}" + rest && s[1..1 + |n|] == n && s[2 + |n|..] == rest
  {
  }

  /** The first `}` after `{name` closes the template when `name` holds no `}` or line terminator. */
  lemma CloseAfterName(n: string, rest: string)
    requires forall k :: 0 <= k < |n| ==> InName(n[k])
    ensures CloseIndex(n + "}" + rest) == Some(|n|)
  {
    var t := n + "}" + rest;
    assert t[|n|] == '}';
    assert forall k :: 0 <= k < |n| ==> t[k] == n[k];
    assert Closes(t);
    assert !InName(t[|n|]);
    assert CloseIndex(t).value == |n|;
  }

  /** The scan is the only well-formed segmentation of a path. */
  lemma {:induction false} ScanUnique(s: string, segs: seq<Segment>)
    requires WellFormed(segs) && Braced(segs) == s
    ensures Scan(s) == segs
    decreases |segs|
  {
    if segs == [] {
    } else {
      var rest := segs[1..];
      assert segs == [segs[0]] + rest;
      match segs[0]
      case Template(n) =>
        assert s == "{" + n + "}" + Braced(rest);
        CloseAfterName(n, Braced(rest));
        Unwrapped(s, n, Braced(rest));
        ScanUnique(Braced(rest), rest);
      case Literal(c) =>
        assert s == [c] + Braced(rest);
        assert s[1..] == Braced(rest);
        ScanUnique(Braced(rest), rest);
    }
  }

  /** A path holds a template exactly when the scan finds at least one. */
  lemma {:induction false} ScanFindsTemplates(s: string)
    ensures TemplateCount(Scan(s)) > 0 <==> HasTemplate(s)
    decreases |s|
  {
    if s == [] {
    } else if s[0] == '{' && CloseIndex(s[1..]).Some? {
      assert s[0] == '{' && Closes(s[0 + 1..]);
    } else {
      ScanFindsTemplates(s[1..]);
      assert Scan(s) == [Literal(s[0])] + Scan(s[1..]);
      if HasTemplate(s) {
        var i :| 0 <= i < |s| && s[i] == '{' && Closes(s[i + 1..]);
        assert i != 0;
        assert s[1..][i - 1] == '{' && s[1..][i - 1 + 1..] == s[i + 1..];
      }
      if HasTemplate(s[1..]) {
        var i :| 0 <= i < |s[1..]| && s[1..][i] == '{' && Closes(s[1..][i + 1..]);
        assert s[i + 1] == '{' && s[i + 1 + 1..] == s[1..][i + 1..];
      }
    }
  }

  /** Each replacement shortens the text by exactly one character. */
  lemma {:induction false} ColonLength(segs: seq<Segment>)
    ensures |Colon(segs)| + TemplateCount(segs) == |Braced(segs)|
    decreases |segs|
  {
    if segs != [] {
      ColonLength(segs[1..]);
    }
  }

  /** Without templates the rewrite changes nothing. */
  lemma {:induction false} ColonWithoutTemplates(segs: seq<Segment>)
    ensures TemplateCount(segs) == 0 ==> Colon(segs) == Braced(segs)
    decreases |segs|
  {
    if segs != [] {
      ColonWithoutTemplates(segs[1..]);
    }
  }

  /** Reading back and rendering distribute over concatenation. */
  lemma {:induction false} Concatenation(a: seq<Segment>, b: seq<Segment>)
    ensures Braced(a + b) == Braced(a) + Braced(b)
    ensures Colon(a + b) == Colon(a) + Colon(b)
    decreases |a|
  {
    if a == [] {
      assert a + b == b;
    } else {
      assert (a + b)[1..] == a[1..] + b;
      Concatenation(a[1..], b);
    }
  }

  /** Literal text: one `Literal` segment per character. */
  function Literals(t: string): (segs: seq<Segment>)
    ensures |segs| == |t| && forall k :: 0 <= k < |t| ==> segs[k] == Literal(t[k])
  {
    seq(|t|, k requires 0 <= k < |t| => Literal(t[k]))
  }

  /** Literal segments read back, and render, as the text they came from. */
  lemma {:induction false} LiteralsText(t: string)
    ensures Braced(Literals(t)) == t && Colon(Literals(t)) == t
    decreases |t|
  {
    if t != [] {
      LiteralsText(t[1..]);
      assert Literals(t)[1..] == Literals(t[1..]);
    }
  }

  /** Literal text without a `{` can stand in front of any well-formed segmentation. */
  lemma {:induction false} LiteralsWellFormed(t: string, segs: seq<Segment>)
    requires forall k :: 0 <= k < |t| ==> t[k] != '{'
    requires WellFormed(segs)
    ensures WellFormed(Literals(t) + segs)
    decreases |t|
  {
    if t == [] {
      assert Literals(t) + segs == segs;
    } else {
      LiteralsWellFormed(t[1..], segs);
      assert (Literals(t) + segs)[1..] == Literals(t[1..]) + segs;
    }
  }

  /**
   * Text before the first `{` is kept as it is, and the first `{name}` whose
   * name holds no `}` or line terminator becomes `:name`; rewriting goes on
   * after its `}`. So `/{foo}/bar/{baz}` becomes `/:foo/bar/:baz`, and
   * `{a}{b}` becomes `:a:b`.
   */
  lemma ToColonTemplate(t: string, n: string, rest: string)
    requires forall k :: 0 <= k < |t| ==> t[k] != '{'
    requires forall k :: 0 <= k < |n| ==> InName(n[k])
    ensures ToColon(t + "{" + n + "}" + rest) == t + ":" + n + ToColon(rest)
  {
    TemplateStepScan(t, n, rest);
    TemplateStepColon(t, n, Scan(rest));
  }

  /** The scan of literal text, a template and a rest: the literals, the template, then the scan of the rest. */
  lemma TemplateStepScan(t: string, n: string, rest: string)
    requires forall k :: 0 <= k < |t| ==> t[k] != '{'
    requires forall k :: 0 <= k < |n| ==> InName(n[k])
    ensures Scan(t + "{" + n + "}" + rest) == Literals(t) + ([Template(n)] + Scan(rest))
  {
    var tail := [Template(n)] + Scan(rest);
    assert WellFormed(tail) by {
      ScanWellFormed(rest);
      assert tail[1..] == Scan(rest);
    }
    LiteralsWellFormed(t, tail);
    TemplateStepBraced(t, n, rest);
    ScanUnique(t + "{" + n + "}" + rest, Literals(t) + tail);
  }

  /** That segmentation reads back as the text it came from. */
  lemma TemplateStepBraced(t: string, n: string, rest: string)
    ensures Braced(Literals(t) + ([Template(n)] + Scan(rest))) == t + "{" + n + "}" + rest
  {
    var tail := [Template(n)] + Scan(rest);
    LiteralsText(t);
    ScanRoundTrip(rest);
    Concatenation([Template(n)], Scan(rest));
    Concatenation(Literals(t), tail);
    assert Braced([Template(n)]) == "{" + n + "}";
    assert Braced(tail) == "{" + n + "}" + rest;
  }

  /** That segmentation renders as the literals, `:name`, then the rendered tail. */
  lemma TemplateStepColon(t: string, n: string, tail: seq<Segment>)
    ensures Colon(Literals(t) + ([Template(n)] + tail)) == t + ":" + n + Colon(tail)
  {
    LiteralsText(t);
    Concatenation(Literals(t), [Template(n)] + tail);
    Concatenation([Template(n)], tail);
    assert Colon([Template(n)]) == ":" + n;
  }

  /** A `{` with no `}` anywhere after it stays as it is. */
  lemma ToColonUnclosed(t: string)
    requires forall k :: 0 <= k < |t| ==> t[k] != '}'
    ensures ToColon("{" + t) == "{" + t
  {
    var s := "{" + t;
    assert forall i :: 0 <= i < |s| ==> s[i] != '}';
  }
}
