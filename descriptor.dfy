/**
 * `parse` (client/frame.js): authoring text becomes a frame descriptor. The
 * first line is the frame source, validated by `Domain.ValidateDomain`; the
 * remaining lines are the caption, from which every `HEIGHT <word>` directive
 * line is removed, and the word of the first such line becomes the height.
 */
module Descriptor {
  import opened Wrappers
  import opened Text
  import Domain

  /** The only sandbox policy `parse` ever sets. */
  const Sandbox: string := "allow-scripts"

  /** The object `parse` returns; `None` is a field holding `undefined`. */
  datatype Descriptor = Descriptor(
    src: string,
    hostname: Option<string>,
    error: Option<string>,
    sandbox: string,
    caption: string,
    height: Option<string>)

  /** `\w`: ASCII letters, digits and the underscore. */
  predicate IsWordChar(c: char)
  {
    Domain.IsAlnum(c) || c == '_'
  }

  /** The line matches `/^HEIGHT (\w+)/`. */
  predicate IsDirective(line: string)
  {
    |line| > 7 && line[..7] == "HEIGHT " && IsWordChar(line[7])
  }

  /** The greedy `\w+` run at the start of `s` (empty when there is none). */
  function WordRun(s: string): (w: string)
    ensures w <= s
    ensures forall i :: 0 <= i < |w| ==> IsWordChar(w[i])
    ensures |w| < |s| ==> !IsWordChar(s[|w|])
  {
    if |s| == 0 || !IsWordChar(s[0]) then ""
    else [s[0]] + WordRun(s[1..])
  }

  /** Group 1 of the directive pattern: the whole word after `HEIGHT `. */
  function HeightToken(line: string): (t: string)
    requires IsDirective(line)
    ensures |t| >= 1
  {
    WordRun(line[7..])
  }

  /** `lines.filter(line => !re.test(line))` */
  function Survivors(lines: seq<string>): (kept: seq<string>)
    ensures forall l :: l in kept ==> l in lines && !IsDirective(l)
    ensures forall l :: l in lines && !IsDirective(l) ==> l in kept
    ensures multiset(kept) <= multiset(lines)
  {
    assert |lines| > 0 ==> lines == [lines[0]] + lines[1..];
    if |lines| == 0 then []
    else if IsDirective(lines[0]) then Survivors(lines[1..])
    else [lines[0]] + Survivors(lines[1..])
  }

  /** The height the `for ... break` scan settles on: the first directive's word. */
  function FirstHeight(lines: seq<string>): (h: Option<string>)
    ensures h.None? <==> forall i :: 0 <= i < |lines| ==> !IsDirective(lines[i])
    ensures h.Some? ==>
      exists i :: 0 <= i < |lines| && IsDirective(lines[i]) && h.value == HeightToken(lines[i])
                  && forall j :: 0 <= j < i ==> !IsDirective(lines[j])
  {
    if |lines| == 0 then None
    else if IsDirective(lines[0]) then Some(HeightToken(lines[0]))
    else
      var h := FirstHeight(lines[1..]);
      assert forall i :: 1 <= i < |lines| ==> lines[i] == lines[1..][i - 1];
      h
  }

  /** What `parse(text)` returns. */
  function Parsed(text: string): (d: Descriptor)
    ensures d.hostname.Some? != d.error.Some?
    ensures d.error.Some? ==> d.error.value == Domain.DomainError
    ensures d.sandbox == Sandbox
    ensures '\n' !in d.src && d.src <= text
    ensures |d.src| < |text| ==> text[|d.src|] == '\n'
  {
    var lines := Split(text, '\n');
    var rest := lines[1..];
    var checked := Domain.ValidateDomain(lines[0]);
    Descriptor(lines[0], checked.hostname, checked.error, Sandbox,
               Join(Survivors(rest), '\n'), FirstHeight(rest))
  }

  /** `parse`, with its height scan as the source writes it: a loop that stops at the first directive. */
  method Parse(text: string) returns (r: Descriptor)
    ensures r == Parsed(text)
  {
    var lines := Split(text, '\n');
    var src, rest := lines[0], lines[1..];
    var checked := Domain.ValidateDomain(src);
    var caption := Join(Survivors(rest), '\n');
    var height: Option<string> := None;
    var i := 0;
    while i < |rest|
      invariant 0 <= i <= |rest|
      invariant height.None? && FirstHeight(rest) == FirstHeight(rest[i..])
    {
      if IsDirective(rest[i]) {
        height := Some(HeightToken(rest[i]));
        break;
      }
      assert rest[i..][1..] == rest[i + 1..];
      i := i + 1;
    }
    r := Descriptor(src, checked.hostname, checked.error, Sandbox, caption, height);
  }

  // ---------------------------------------------------------------------------
  // Properties of `parse`.

  /** The hostname is reported exactly when the first line matches the domain pattern, as group 1. */
  lemma ParsedHostname(text: string, h: string)
    ensures Parsed(text).hostname == Some(h) <==> Domain.UrlMatch(Parsed(text).src, h)
  {
    Domain.ValidateDomainMatches(Parsed(text).src, h);
  }

  /** Filtering keeps order: the survivors of a concatenation are the concatenated survivors. */
  lemma {:induction false} SurvivorsAppend(a: seq<string>, b: seq<string>)
    ensures Survivors(a + b) == Survivors(a) + Survivors(b)
    decreases |a|
  {
    if |a| == 0 {
      assert a + b == b;
    } else {
      assert (a + b)[1..] == a[1..] + b;
      SurvivorsAppend(a[1..], b);
    }
  }

  /**
   * Splitting the caption at newlines gives back exactly the non-directive
   * lines after the first, in order; when there are none the caption is empty.
   * No line of the caption is a directive.
   */
  lemma CaptionLines(text: string)
    ensures var kept := Survivors(Split(text, '\n')[1..]);
            && (kept == [] ==> Parsed(text).caption == "")
            && (kept != [] ==> Split(Parsed(text).caption, '\n') == kept)
    ensures forall l :: l in Split(Parsed(text).caption, '\n') ==> !IsDirective(l)
  {
    var lines := Split(text, '\n');
    var kept := Survivors(lines[1..]);
    forall i | 0 <= i < |kept| ensures '\n' !in kept[i] {
      assert kept[i] in lines[1..];
    }
    if kept != [] {
      SplitJoin(kept, '\n');
    } else {
      assert Split("", '\n') == [""];
    }
  }

  /** Only the first directive sets the height: later ones are ignored, earlier plain lines skipped. */
  lemma {:induction false} FirstHeightAppend(a: seq<string>, b: seq<string>)
    ensures FirstHeight(a + b) == if FirstHeight(a).Some? then FirstHeight(a) else FirstHeight(b)
    decreases |a|
  {
    if |a| == 0 {
      assert a + b == b;
    } else {
      assert (a + b)[0] == a[0];
      assert (a + b)[1..] == a[1..] + b;
      FirstHeightAppend(a[1..], b);
    }
  }

  /** A text without a newline is all source: empty caption, no height. */
  lemma SingleLine(text: string)
    requires '\n' !in text
    ensures Parsed(text).src == text
    ensures Parsed(text).caption == ""
    ensures Parsed(text).height == None
  {
    IndexOfConcat(text, "", '\n');
    assert text + "" == text;
  }
}
