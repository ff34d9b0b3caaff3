/**
 * The host side of the message protocol (client/frame.js): the advertisement a
 * frame receives when it loads, and `frameListener`, which routes each inbound
 * `{wiki: {...}}` message to one host action. The host actions themselves
 * (`wiki.showResult`, `wiki.doInternalLink`, `showImporter`, `resize`, and
 * `console.error`) are returned as `Effect` values rather than performed.
 */
module Listener {
  import opened Wrappers
  import opened Json

  /**
   * A `.page` element of the lineup, in document order: its `key` and the
   * `data-frameid` of each frame inside it, in document order.
   */
  datatype PageElement = PageElement(key: string, frameIds: seq<string>)

  /**
   * What the dispatcher does. An anchor `None` is the empty options `{}`;
   * `Some(sel)` is `{$page}` with the selected lineup positions.
   */
  datatype Effect =
    | ShowResult(page: Value, anchor: Option<seq<nat>>)
    | InternalLink(title: Value, anchor: Option<seq<nat>>)
    | Import(pages: Value, anchor: Option<seq<nat>>)
    | Resize(pageIndex: nat, frameIndex: nat)
    | Log

  /** `advertiseMessages`: sent to a frame's window once it has loaded. */
  function Advertisement(pagekey: string, frameid: string): Value
  {
    Obj(map["wiki" := Obj(map[
      "identifiers" := Obj(map["pagekey" := Str(pagekey), "frameid" := Str(frameid)]),
      "accepts" := Arr([Str("showResult"), Str("doInternalLink"), Str("importer"), Str("resize")])])])
  }

  function HexDigit(d: nat): (c: char)
    requires d < 16
    ensures IsHexDigit(c)
  {
    if d < 10 then ('0' as int + d) as char else ('a' as int + d - 10) as char
  }

  predicate IsHexDigit(c: char)
  {
    '0' <= c <= '9' || 'a' <= c <= 'f'
  }

  /** `Number.prototype.toString(16)` on a non-negative integer. */
  function Hex(n: nat): (s: string)
    ensures |s| >= 1
    ensures forall i :: 0 <= i < |s| ==> IsHexDigit(s[i])
    ensures (|s| == 1) == (n < 16)
  {
    if n < 16 then [HexDigit(n)] else Hex(n / 16) + [HexDigit(n % 16)]
  }

  /**
   * `frameId()`: the hexadecimal text of `r`, the integer part of a random
   * draw scaled by 10^18; the draw itself is the parameter.
   */
  function FrameId(r: nat): (id: string)
    requires r < 1_000_000_000_000_000_000
    ensures |id| >= 1
    ensures SelectorSafe(id)
  {
    Hex(r)
  }

  // ---------------------------------------------------------------------------
  // Reading the message.

  /** `data.wiki` can be destructured: it is present and not `null`. */
  predicate HasWrapper(data: Value)
  {
    data.Obj? && "wiki" in data.fields && data.fields["wiki"] != Null
  }

  /** The named properties of `data.wiki`; a primitive wrapper has none. */
  function Wiki(data: Value): map<string, Value>
    requires HasWrapper(data)
  {
    var w := data.fields["wiki"];
    if w.Obj? then w.fields else map[]
  }

  function Action(data: Value): Option<Value>
    requires HasWrapper(data)
  {
    if "action" in Wiki(data) then Some(Wiki(data)["action"]) else None
  }

  function KeepLineup(data: Value): Value requires HasWrapper(data) { FieldOr(Wiki(data), "keepLineup", Bool(false)) }
  function FrameIdOf(data: Value): Value requires HasWrapper(data) { FieldOr(Wiki(data), "frameid", Null) }
  function PageKeyOf(data: Value): Value requires HasWrapper(data) { FieldOr(Wiki(data), "pagekey", Null) }
  function PageOf(data: Value): Value requires HasWrapper(data) { FieldOr(Wiki(data), "page", Null) }
  function PagesOf(data: Value): Value requires HasWrapper(data) { FieldOr(Wiki(data), "pages", Obj(map[])) }
  function TitleOf(data: Value): Value requires HasWrapper(data) { FieldOr(Wiki(data), "title", Null) }

  predicate IsAction(data: Value, name: string)
    requires HasWrapper(data)
  {
    Action(data) == Some(Str(name))
  }

  /** Text that fits inside the double-quoted attribute selector unchanged. */
  predicate SelectorSafe(t: string)
  {
    forall i :: 0 <= i < |t| ==> t[i] != '"' && t[i] != '\\' && t[i] != '\n' && t[i] != '\r' && t[i] != '\U{000C}'
  }

  // ---------------------------------------------------------------------------
  // Finding pages and frames.

  /** `$('.page').filter(...)` on `key === pagekey`: the matching lineup positions, in order. */
  function Selection(lineup: seq<PageElement>, pagekey: Value): (sel: seq<nat>)
    ensures forall k :: 0 <= k < |sel| ==> sel[k] < |lineup|
    ensures forall i :: 0 <= i < |lineup| ==> (i in sel <==> pagekey == Str(lineup[i].key))
    ensures forall a, b :: 0 <= a < b < |sel| ==> sel[a] < sel[b]
  {
    if |lineup| == 0 then []
    else
      var n := |lineup| - 1;
      var front := Selection(lineup[..n], pagekey);
      assert forall i :: 0 <= i < n ==> lineup[..n][i] == lineup[i];
      front + (if pagekey == Str(lineup[n].key) then [n] else [])
  }

  /** Position of the first `x` in `s`, if any. */
  function FirstIndex(s: seq<string>, x: string): (r: Option<nat>)
    ensures r.Some? ==> r.value < |s| && s[r.value] == x && forall j :: 0 <= j < r.value ==> s[j] != x
    ensures r.None? ==> x !in s
  {
    if |s| == 0 then None
    else if s[0] == x then Some(0)
    else match FirstIndex(s[1..], x)
      case None => None
      case Some(j) => Some(j + 1)
  }

  /** Every selected position lies in the lineup. */
  predicate InLineup(lineup: seq<PageElement>, sel: seq<nat>)
  {
    forall k :: 0 <= k < |sel| ==> sel[k] < |lineup|
  }

  /** None of the first `k` selected pages holds a frame with id `id`. */
  predicate SkipsTo(lineup: seq<PageElement>, sel: seq<nat>, id: string, k: nat)
    requires InLineup(lineup, sel) && k <= |sel|
  {
    forall k' :: 0 <= k' < k ==> id !in lineup[sel[k']].frameIds
  }

  lemma SkipsShift(lineup: seq<PageElement>, sel: seq<nat>, id: string, k: nat)
    requires InLineup(lineup, sel) && 0 < |sel| && k < |sel|
    requires id !in lineup[sel[0]].frameIds
    requires SkipsTo(lineup, sel[1..], id, k)
    ensures SkipsTo(lineup, sel, id, k + 1)
  {
    forall k' | 0 <= k' < k + 1 ensures id !in lineup[sel[k']].frameIds {
      if k' > 0 {
        assert sel[k'] == sel[1..][k' - 1];
      }
    }
  }

  /**
   * `$page.find('iframe[data-frameid="id"]').get(0)`: the first frame, in
   * document order, among the selected pages, whose frame id is `id`.
   */
  function FindFrame(lineup: seq<PageElement>, sel: seq<nat>, id: string): (r: Option<(nat, nat)>)
    requires InLineup(lineup, sel)
    ensures r.Some? ==>
      && r.value.0 in sel
      && r.value.1 < |lineup[r.value.0].frameIds|
      && lineup[r.value.0].frameIds[r.value.1] == id
    ensures r.Some? ==>
      && (forall j :: 0 <= j < r.value.1 ==> lineup[r.value.0].frameIds[j] != id)
      && exists k :: 0 <= k < |sel| && sel[k] == r.value.0 && SkipsTo(lineup, sel, id, k)
    ensures r.None? ==>
      forall k, j :: 0 <= k < |sel| && 0 <= j < |lineup[sel[k]].frameIds| ==> lineup[sel[k]].frameIds[j] != id
  {
    if |sel| == 0 then None
    else match FirstIndex(lineup[sel[0]].frameIds, id)
      case Some(j) =>
        assert SkipsTo(lineup, sel, id, 0);
        Some((sel[0], j))
      case None =>
        assert forall k :: 1 <= k < |sel| ==> sel[k] == sel[1..][k - 1];
        var r := FindFrame(lineup, sel[1..], id);
        assert r.Some? ==> exists k :: 0 <= k < |sel| && sel[k] == r.value.0 && SkipsTo(lineup, sel, id, k) by {
          if r.Some? {
            var k :| 0 <= k < |sel[1..]| && sel[1..][k] == r.value.0 && SkipsTo(lineup, sel[1..], id, k);
            SkipsShift(lineup, sel, id, k);
          }
        }
        r
  }

  /**
   * The first selected page holding `id` comes after every other selected page
   * that precedes it in the lineup, so none of those holds `id`.
   */
  lemma EarlierPagesSkipped(lineup: seq<PageElement>, sel: seq<nat>, pagekey: Value, id: string, p: nat)
    requires sel == Selection(lineup, pagekey)
    requires exists k :: 0 <= k < |sel| && sel[k] == p && SkipsTo(lineup, sel, id, k)
    ensures forall i :: 0 <= i < p && pagekey == Str(lineup[i].key) ==> id !in lineup[i].frameIds
  {
    var k :| 0 <= k < |sel| && sel[k] == p && SkipsTo(lineup, sel, id, k);
    forall i | 0 <= i < p && pagekey == Str(lineup[i].key)
      ensures id !in lineup[i].frameIds
    {
      assert p < |lineup|;
      assert i in sel;
      var k'' :| 0 <= k'' < |sel| && sel[k''] == i;
      assert k'' < k;
    }
  }

  // ---------------------------------------------------------------------------
  // Routing.

  /** `frameListener(event)` for `event.data == data`, given the pages currently in the lineup. */
  function Route(data: Value, lineup: seq<PageElement>): (e: Effect)
    requires HasWrapper(data)
    requires IsAction(data, "resize") ==> SelectorSafe(ToText(FrameIdOf(data)))
    ensures e.ShowResult? <==> IsAction(data, "showResult")
    ensures e.InternalLink? <==> IsAction(data, "doInternalLink")
    ensures e.Import? <==> IsAction(data, "importer")
    ensures e.Resize? ==> IsAction(data, "resize")
    ensures (!IsAction(data, "showResult") && !IsAction(data, "doInternalLink") &&
             !IsAction(data, "importer") && !IsAction(data, "resize")) ==> e.Log?
    ensures e.ShowResult? ==> e.page == PageOf(data)
    ensures e.InternalLink? ==> e.title == TitleOf(data)
    ensures e.Import? ==> e.pages == PagesOf(data)
    ensures (e.ShowResult? || e.InternalLink? || e.Import?) ==>
      e.anchor == if Truthy(KeepLineup(data)) then None else Some(Selection(lineup, PageKeyOf(data)))
    ensures e.Resize? ==>
      && e.pageIndex < |lineup|
      && PageKeyOf(data) == Str(lineup[e.pageIndex].key)
      && e.frameIndex < |lineup[e.pageIndex].frameIds|
      && lineup[e.pageIndex].frameIds[e.frameIndex] == ToText(FrameIdOf(data))
    ensures e.Resize? ==>
      && (forall j :: 0 <= j < e.frameIndex ==> lineup[e.pageIndex].frameIds[j] != ToText(FrameIdOf(data)))
      && (forall i :: 0 <= i < e.pageIndex && PageKeyOf(data) == Str(lineup[i].key) ==>
            ToText(FrameIdOf(data)) !in lineup[i].frameIds)
    ensures e.Log? && IsAction(data, "resize") ==>
      forall i, j :: 0 <= i < |lineup| && PageKeyOf(data) == Str(lineup[i].key) && 0 <= j < |lineup[i].frameIds|
        ==> lineup[i].frameIds[j] != ToText(FrameIdOf(data))
  {
    var sel := Selection(lineup, PageKeyOf(data));
    var anchor := if Truthy(KeepLineup(data)) then None else Some(sel);
    if IsAction(data, "showResult") then ShowResult(PageOf(data), anchor)
    else if IsAction(data, "doInternalLink") then InternalLink(TitleOf(data), anchor)
    else if IsAction(data, "importer") then Import(PagesOf(data), anchor)
    else if IsAction(data, "resize") then
      match FindFrame(lineup, sel, ToText(FrameIdOf(data)))
      case Some((i, j)) =>
        EarlierPagesSkipped(lineup, sel, PageKeyOf(data), ToText(FrameIdOf(data)), i);
        Resize(i, j)
      case None =>
        assert forall i :: 0 <= i < |lineup| && PageKeyOf(data) == Str(lineup[i].key) ==>
          exists k :: 0 <= k < |sel| && sel[k] == i;
        Log
    else Log
  }

  /** Without a `keepLineup` field a request is anchored at the pages keyed by its `pagekey`. */
  lemma AnchoredByDefault(data: Value, lineup: seq<PageElement>)
    requires HasWrapper(data) && "keepLineup" !in Wiki(data)
    requires IsAction(data, "showResult") || IsAction(data, "doInternalLink") || IsAction(data, "importer")
    ensures var e := Route(data, lineup);
      (e.ShowResult? || e.InternalLink? || e.Import?) && e.anchor == Some(Selection(lineup, PageKeyOf(data)))
  {
  }
}
