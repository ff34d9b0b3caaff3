/**
 * `expand` (client/frame.js): the caption is HTML-escaped (`&`, then `<`,
 * then `>`) and every `*text*` becomes `<i>text</i>`. Link resolution is the
 * identity, as in the module's own stand-in for the wiki client.
 */
module Caption {
  import opened Wrappers

  /** `s.replace(/c/g, rep)` for a one-character pattern. */
  function ReplaceAll(s: string, c: char, rep: string): string
  {
    if |s| == 0 then ""
    else (if s[0] == c then rep else [s[0]]) + ReplaceAll(s[1..], c, rep)
  }

  /** The three chained escaping replacements, in the source's order. */
  function Escape(s: string): string
  {
    ReplaceAll(ReplaceAll(ReplaceAll(s, '&', "&amp;"), '<', "&lt;"), '>', "&gt;")
  }

  /** JavaScript's line terminators, which `.` does not match. */
  predicate IsLineTerminator(c: char)
  {
    c == '\n' || c == '\r' || c == '\U{2028}' || c == '\U{2029}'
  }

  /** Scanning for the closing star of `\*(.+?)\*` opened at `s[0]`, from index `q` on. */
  function CloseFrom(s: string, q: nat): (r: Option<nat>)
    requires 2 <= q
    requires forall j :: 1 <= j < q && j < |s| ==> !IsLineTerminator(s[j])
    ensures r.Some? ==>
      && q <= r.value < |s| && s[r.value] == '*'
      && (forall j :: 1 <= j < r.value ==> !IsLineTerminator(s[j]))
      && (forall j :: q <= j < r.value ==> s[j] != '*')
    ensures r.None? ==>
      forall k :: q <= k < |s| && s[k] == '*' ==> exists j :: 1 <= j < k && IsLineTerminator(s[j])
    decreases |s| - q
  {
    if q >= |s| then None
    else if s[q] == '*' then Some(q)
    else if IsLineTerminator(s[q]) then None
    else CloseFrom(s, q + 1)
  }

  /**
   * Index of the star closing the lazy match `\*(.+?)\*` that would start at
   * `s[0]`: the first star after a non-empty run without line terminators.
   */
  function Closing(s: string): (r: Option<nat>)
    ensures r.Some? ==>
      && 2 <= r.value < |s| && s[r.value] == '*'
      && (forall j :: 1 <= j < r.value ==> !IsLineTerminator(s[j]))
      && (forall j :: 2 <= j < r.value ==> s[j] != '*')
    ensures r.None? ==>
      forall k :: 2 <= k < |s| && s[k] == '*' ==> exists j :: 1 <= j < k && IsLineTerminator(s[j])
  {
    if |s| < 2 || IsLineTerminator(s[1]) then None
    else CloseFrom(s, 2)
  }

  /** The global lazy rewrite of `\*(.+?)\*` into `<i>$1</i>`: leftmost, non-overlapping, shortest matches. */
  function Emphasize(s: string): string
    decreases |s|
  {
    if |s| == 0 then ""
    else if s[0] == '*' && Closing(s).Some? then
      var q := Closing(s).value;
      "<i>" + s[1..q] + "</i>" + Emphasize(s[q + 1..])
    else [s[0]] + Emphasize(s[1..])
  }

  /** `expand(text)` with `resolveLinks` as the identity. */
  function Expand(text: string): string
  {
    Emphasize(Escape(text))
  }

  // ---------------------------------------------------------------------------
  // Reference readings: a per-character escape, its decoder, and the inverse
  // of the emphasis rewrite.

  /** What one input character becomes once escaped. */
  function EscapeChar(c: char): string
  {
    if c == '&' then "&amp;" else if c == '<' then "&lt;" else if c == '>' then "&gt;" else [c]
  }

  function EscapeEach(s: string): string
  {
    if |s| == 0 then "" else EscapeChar(s[0]) + EscapeEach(s[1..])
  }

  /** Decodes the three entities `&amp;`, `&lt;`, `&gt;`. */
  function Unescape(t: string): string
    decreases |t|
  {
    if |t| == 0 then ""
    else if |t| >= 5 && t[..5] == "&amp;" then "&" + Unescape(t[5..])
    else if |t| >= 4 && t[..4] == "&lt;" then "<" + Unescape(t[4..])
    else if |t| >= 4 && t[..4] == "&gt;" then ">" + Unescape(t[4..])
    else [t[0]] + Unescape(t[1..])
  }

  /** Turns each `<i>` and `</i>` tag back into the star it replaced. */
  function Restore(t: string): string
    decreases |t|
  {
    if |t| == 0 then ""
    else if |t| >= 3 && t[..3] == "<i>" then "*" + Restore(t[3..])
    else if |t| >= 4 && t[..4] == "</i>" then "*" + Restore(t[4..])
    else [t[0]] + Restore(t[1..])
  }

  // ---------------------------------------------------------------------------
  // Escaping.

  lemma {:induction false} ReplaceAllAppend(a: string, b: string, c: char, rep: string)
    ensures ReplaceAll(a + b, c, rep) == ReplaceAll(a, c, rep) + ReplaceAll(b, c, rep)
    decreases |a|
  {
    if |a| == 0 {
      assert a + b == b;
    } else {
      assert (a + b)[1..] == a[1..] + b;
      ReplaceAllAppend(a[1..], b, c, rep);
    }
  }

  lemma ReplaceAllOne(x: char, c: char, rep: string)
    ensures ReplaceAll([x], c, rep) == if x == c then rep else [x]
  {
    assert [x][1..] == [];
  }

  lemma {:induction false} ReplaceAllAbsent(s: string, c: char, rep: string)
    requires c !in s
    ensures ReplaceAll(s, c, rep) == s
    decreases |s|
  {
    if |s| > 0 {
      ReplaceAllAbsent(s[1..], c, rep);
      assert s == [s[0]] + s[1..];
    }
  }

  lemma EscapeOneChar(x: char)
    ensures Escape([x]) == EscapeChar(x)
  {
    ReplaceAllOne(x, '&', "&amp;");
    if x == '&' {
      ReplaceAllAbsent("&amp;", '<', "&lt;");
      ReplaceAllAbsent("&amp;", '>', "&gt;");
    } else if x == '<' {
      ReplaceAllOne(x, '<', "&lt;");
      ReplaceAllAbsent("&lt;", '>', "&gt;");
    } else {
      ReplaceAllOne(x, '<', "&lt;");
      ReplaceAllOne(x, '>', "&gt;");
    }
  }

  /** The chained replacements act character by character: no entity is escaped twice. */
  lemma {:induction false} EscapeCharwise(s: string)
    ensures Escape(s) == EscapeEach(s)
    decreases |s|
  {
    if |s| > 0 {
      var x, t := s[0], s[1..];
      assert s == [x] + t;
      var r1 := ReplaceAll([x], '&', "&amp;");
      var r2 := ReplaceAll(r1, '<', "&lt;");
      ReplaceAllAppend([x], t, '&', "&amp;");
      ReplaceAllAppend(r1, ReplaceAll(t, '&', "&amp;"), '<', "&lt;");
      ReplaceAllAppend(r2, ReplaceAll(ReplaceAll(t, '&', "&amp;"), '<', "&lt;"), '>', "&gt;");
      EscapeOneChar(x);
      EscapeCharwise(t);
    }
  }

  /** Decoding one escaped character in front of more text. */
  lemma UnescapeOne(x: char, rest: string)
    ensures Unescape(EscapeChar(x) + rest) == [x] + Unescape(rest)
  {
    var t := EscapeChar(x) + rest;
    if x == '&' {
      assert t[..5] == "&amp;" && t[5..] == rest;
    } else if x == '<' {
      assert t[..4] == "&lt;" && t[4..] == rest;
      assert |t| >= 5 ==> t[..5][1] == 'l';
    } else if x == '>' {
      assert t[..4] == "&gt;" && t[4..] == rest;
      assert |t| >= 5 ==> t[..5][1] == 'g';
      assert t[..4][1] == 'g';
    } else {
      assert t[0] == x && t[1..] == rest;
      assert |t| >= 5 ==> t[..5][0] == x;
      assert |t| >= 4 ==> t[..4][0] == x;
    }
  }

  /** Unescaping undoes escaping: the escaped caption carries exactly the input text. */
  lemma {:induction false} UnescapeEscapeEach(s: string)
    ensures Unescape(EscapeEach(s)) == s
    decreases |s|
  {
    if |s| > 0 {
      UnescapeEscapeEach(s[1..]);
      UnescapeOne(s[0], EscapeEach(s[1..]));
      assert s == [s[0]] + s[1..];
    }
  }

  lemma UnescapeEscape(s: string)
    ensures Unescape(Escape(s)) == s
  {
    EscapeCharwise(s);
    UnescapeEscapeEach(s);
  }

  /** No `<` or `>` of the input survives escaping raw. */
  lemma {:induction false} EscapeNoAngle(s: string)
    ensures '<' !in Escape(s) && '>' !in Escape(s)
    decreases |s|
  {
    EscapeCharwise(s);
    if |s| > 0 {
      EscapeNoAngle(s[1..]);
      EscapeCharwise(s[1..]);
    }
  }

  /** Text without `&`, `<` or `>` is not changed by escaping. */
  lemma {:induction false} EscapePlain(s: string)
    requires '&' !in s && '<' !in s && '>' !in s
    ensures Escape(s) == s
    decreases |s|
  {
    EscapeCharwise(s);
    if |s| > 0 {
      EscapePlain(s[1..]);
      EscapeCharwise(s[1..]);
      assert s == [s[0]] + s[1..];
    }
  }

  // ---------------------------------------------------------------------------
  // Emphasis.

  /** The rewrite replaces the shortest starred run `*x*` at the front by `<i>x</i>`. */
  lemma ShortestMatch(s: string, x: string, t: string)
    requires s == "*" + x + "*" + t
    requires |x| >= 1
    requires forall j :: 0 <= j < |x| ==> !IsLineTerminator(x[j])
    requires forall j :: 1 <= j < |x| ==> x[j] != '*'
    ensures Emphasize(s) == "<i>" + x + "</i>" + Emphasize(t)
  {
    var q := |x| + 1;
    assert s[q] == '*';
    assert forall j :: 1 <= j < q ==> s[j] == x[j - 1];
    match Closing(s)
    case None =>
      assert false;
    case Some(r) =>
      assert r == q;
    assert s[1..q] == x;
    assert s[q + 1..] == t;
  }

  /** A star with no closing star on its line stays literal. */
  lemma UnclosedStar(s: string)
    requires |s| >= 1 && s[0] == '*'
    requires forall k :: 2 <= k < |s| && s[k] == '*' ==> exists j :: 1 <= j < k && IsLineTerminator(s[j])
    ensures Emphasize(s) == "*" + Emphasize(s[1..])
  {
    assert Closing(s).None?;
  }

  /** Text without stars is left as it is. */
  lemma {:induction false} EmphasizePlain(s: string)
    requires '*' !in s
    ensures Emphasize(s) == s
    decreases |s|
  {
    if |s| > 0 {
      EmphasizePlain(s[1..]);
      assert s == [s[0]] + s[1..];
    }
  }

  lemma {:induction false} RestorePlain(x: string, t: string)
    requires '<' !in x
    ensures Restore(x + t) == x + Restore(t)
    decreases |x|
  {
    if |x| > 0 {
      assert (x + t)[0] == x[0];
      assert (x + t)[1..] == x[1..] + t;
      RestorePlain(x[1..], t);
      assert x == [x[0]] + x[1..];
    } else {
      assert x + t == t;
    }
  }

  lemma RestoreTagged(x: string, e: string)
    requires '<' !in x
    ensures Restore("<i>" + x + "</i>" + e) == "*" + x + "*" + Restore(e)
  {
    var t := "<i>" + x + "</i>" + e;
    assert t[..3] == "<i>" && t[3..] == x + ("</i>" + e);
    RestorePlain(x, "</i>" + e);
    var u := "</i>" + e;
    assert u[..3] != "<i>" by {
      assert u[..3][1] == '/';
    }
    assert u[..4] == "</i>" && u[4..] == e;
  }

  lemma Recompose(s: string, q: nat)
    requires 1 <= q < |s| && s[0] == '*' && s[q] == '*'
    ensures s == "*" + s[1..q] + "*" + s[q + 1..]
  {
    assert s == s[..1] + s[1..q] + s[q..q + 1] + s[q + 1..];
  }

  /** Turning the tags back into stars recovers the text the rewrite started from. */
  lemma {:induction false} RestoreEmphasize(s: string)
    requires '<' !in s
    ensures Restore(Emphasize(s)) == s
    decreases |s|
  {
    if |s| > 0 {
      if s[0] == '*' && Closing(s).Some? {
        var q := Closing(s).value;
        var x, rest := s[1..q], s[q + 1..];
        var e := Emphasize(rest);
        assert Emphasize(s) == "<i>" + x + "</i>" + e;
        RestoreEmphasize(rest);
        assert '<' !in x by {
          assert forall j :: 0 <= j < |x| ==> x[j] == s[j + 1];
        }
        RestoreTagged(x, e);
        Recompose(s, q);
      } else {
        var e := Emphasize(s[1..]);
        assert Emphasize(s) == [s[0]] + e;
        RestoreEmphasize(s[1..]);
        RestorePlain([s[0]], e);
        assert s == [s[0]] + s[1..];
      }
    }
  }

  /** Text before the first star is copied, and the rewrite carries on after it. */
  lemma {:induction false} EmphasizeAfterPlain(p: string, t: string)
    requires '*' !in p
    ensures Emphasize(p + t) == p + Emphasize(t)
    decreases |p|
  {
    if |p| > 0 {
      assert (p + t)[0] == p[0];
      assert (p + t)[1..] == p[1..] + t;
      EmphasizeAfterPlain(p[1..], t);
      assert p == [p[0]] + p[1..];
    } else {
      assert p + t == t;
    }
  }

  // ---------------------------------------------------------------------------
  // The caption expansion as a whole.

  lemma EscapeAppend(a: string, b: string)
    ensures Escape(a + b) == Escape(a) + Escape(b)
  {
    var a1, b1 := ReplaceAll(a, '&', "&amp;"), ReplaceAll(b, '&', "&amp;");
    var a2, b2 := ReplaceAll(a1, '<', "&lt;"), ReplaceAll(b1, '<', "&lt;");
    ReplaceAllAppend(a, b, '&', "&amp;");
    ReplaceAllAppend(a1, b1, '<', "&lt;");
    ReplaceAllAppend(a2, b2, '>', "&gt;");
  }

  /**
   * A starred word after plain text is italicised in place: `see *this*`
   * renders as `see <i>this</i>`, and whatever follows is expanded in turn.
   */
  lemma ExpandStarred(p: string, x: string, t: string)
    requires '&' !in p && '<' !in p && '>' !in p && '*' !in p
    requires '&' !in x && '<' !in x && '>' !in x && '*' !in x
    requires |x| >= 1 && forall j :: 0 <= j < |x| ==> !IsLineTerminator(x[j])
    ensures Expand(p + "*" + x + "*" + t) == p + "<i>" + x + "</i>" + Expand(t)
  {
    var e := Escape(t);
    var m := "*" + x + "*" + e;
    var tail := "<i>" + x + "</i>" + Emphasize(e);
    calc {
      Expand(p + "*" + x + "*" + t);
      { EscapeStarred(p, x, t); }
      Emphasize(p + m);
      { EmphasizeAfterPlain(p, m); }
      p + Emphasize(m);
      { ShortestMatch(m, x, e); }
      p + tail;
    }
  }

  lemma EscapeStarred(p: string, x: string, t: string)
    requires '&' !in p && '<' !in p && '>' !in p
    requires '&' !in x && '<' !in x && '>' !in x
    ensures Escape(p + "*" + x + "*" + t) == p + ("*" + x + "*" + Escape(t))
  {
    var m := "*" + x + "*";
    assert '&' !in m && '<' !in m && '>' !in m;
    assert p + "*" + x + "*" + t == p + (m + t);
    EscapeAppend(p, m + t);
    EscapeAppend(m, t);
    EscapePlain(p);
    EscapePlain(m);
  }

  /**
   * Expansion loses nothing: restoring the tags gives the escaped text, which
   * has no raw `<` or `>`, and unescaping that gives the caption back.
   */
  lemma ExpandRoundTrip(s: string)
    ensures Restore(Expand(s)) == Escape(s)
    ensures '<' !in Restore(Expand(s)) && '>' !in Restore(Expand(s))
    ensures Unescape(Restore(Expand(s))) == s
  {
    EscapeNoAngle(s);
    RestoreEmphasize(Escape(s));
    UnescapeEscape(s);
  }

  /** A caption without `&`, `<`, `>` or `*` is rendered unchanged. */
  lemma ExpandPlain(s: string)
    requires '&' !in s && '<' !in s && '>' !in s && '*' !in s
    ensures Expand(s) == s
  {
    EscapePlain(s);
    EmphasizePlain(s);
  }
}
