/**
 * The two halves of the message protocol together: a frame that has seen the
 * host's advertisement posts requests that the host routes back to the page
 * and the frame they came from.
 */
module Protocol {
  import opened Wrappers
  import opened Json
  import Listener
  import Messenger

  /** The identifiers the host advertises to one frame. */
  function Identifiers(pagekey: string, frameid: string): Value
  {
    Obj(map["pagekey" := Str(pagekey), "frameid" := Str(frameid)])
  }

  /** The message a frame holding the advertised identifiers posts for `action` and `data`. */
  function Sent(pagekey: string, frameid: string, action: string, data: Value, shift: bool): (msg: Value)
    ensures Listener.HasWrapper(msg)
    ensures Listener.Wiki(msg) == Messenger.Envelope(action, data, shift, Identifiers(pagekey, frameid))
  {
    Messenger.Outgoing(true, Some(Identifiers(pagekey, frameid)), action, data, shift).value
  }

  /** Some page of the lineup keyed `pagekey` holds a frame with id `frameid`. */
  predicate Hosts(lineup: seq<Listener.PageElement>, pagekey: string, frameid: string)
  {
    exists i, j :: 0 <= i < |lineup| && lineup[i].key == pagekey &&
      0 <= j < |lineup[i].frameIds| && lineup[i].frameIds[j] == frameid
  }

  /** Inside a frame, the advertisement leaves exactly its identifiers behind, and they are truthy. */
  lemma Handshake(ids: Option<Value>, pagekey: string, frameid: string)
    ensures Messenger.Accepted(true, ids, Listener.Advertisement(pagekey, frameid)) == Some(Identifiers(pagekey, frameid))
    ensures TruthyOpt(Some(Identifiers(pagekey, frameid)))
  {
  }

  lemma IdentifiersSpread(pagekey: string, frameid: string)
    ensures Spread(Identifiers(pagekey, frameid)) == map["pagekey" := Str(pagekey), "frameid" := Str(frameid)]
  {
  }

  /** The envelope a frame builds carries its own identifiers ... */
  lemma EnvelopeIdentifiers(pagekey: string, frameid: string, action: string, data: Value, shift: bool)
    ensures var env := Messenger.Envelope(action, data, shift, Identifiers(pagekey, frameid));
      && "pagekey" in env && env["pagekey"] == Str(pagekey)
      && "frameid" in env && env["frameid"] == Str(frameid)
  {
    IdentifiersSpread(pagekey, frameid);
  }

  /** ... the action and shift state it was posted with ... */
  lemma EnvelopeHeader(pagekey: string, frameid: string, action: string, data: Value, shift: bool)
    requires "action" !in Spread(data)
    ensures var env := Messenger.Envelope(action, data, shift, Identifiers(pagekey, frameid));
      && "action" in env && env["action"] == Str(action)
      && "keepLineup" in env && env["keepLineup"] == Bool(shift)
  {
    IdentifiersSpread(pagekey, frameid);
  }

  /** ... and every data field its identifiers do not override. */
  lemma EnvelopeData(pagekey: string, frameid: string, action: string, data: Value, shift: bool)
    ensures var env := Messenger.Envelope(action, data, shift, Identifiers(pagekey, frameid));
      forall k :: k in Spread(data) && k != "pagekey" && k != "frameid" && k != "keepLineup" ==> k in env && env[k] == Spread(data)[k]
  {
    IdentifiersSpread(pagekey, frameid);
  }

  /**
   * What the host reads back from a posted request: the action, the shift
   * state, the frame's own identifiers, and every data field the envelope
   * does not reserve.
   */
  lemma Delivered(pagekey: string, frameid: string, action: string, data: Value, shift: bool)
    requires "action" !in Spread(data)
    ensures var msg := Sent(pagekey, frameid, action, data, shift);
      && Listener.HasWrapper(msg)
      && Listener.Action(msg) == Some(Str(action))
      && Listener.KeepLineup(msg) == Bool(shift)
      && Listener.PageKeyOf(msg) == Str(pagekey)
      && Listener.FrameIdOf(msg) == Str(frameid)
      && forall k :: k in Spread(data) && k != "pagekey" && k != "frameid" && k != "keepLineup" ==>
           k in Listener.Wiki(msg) && Listener.Wiki(msg)[k] == Spread(data)[k]
  {
    EnvelopeIdentifiers(pagekey, frameid, action, data, shift);
    EnvelopeHeader(pagekey, frameid, action, data, shift);
    EnvelopeData(pagekey, frameid, action, data, shift);
  }

  /** The lineup anchor the host uses for a request posted with the given shift state. */
  function Anchor(lineup: seq<Listener.PageElement>, pagekey: string, shift: bool): Option<seq<nat>>
  {
    if shift then None else Some(Listener.Selection(lineup, Str(pagekey)))
  }

  /** `showResult(page)` opens `page` next to the frame's page, or at the end of the lineup with shift. */
  lemma ShowResultRoundTrip(pagekey: string, frameid: string, page: Value, shift: bool, lineup: seq<Listener.PageElement>)
    ensures var msg := Sent(pagekey, frameid, "showResult", Obj(map["page" := page]), shift);
      && Listener.IsAction(msg, "showResult")
      && Listener.Route(msg, lineup) == Listener.ShowResult(page, Anchor(lineup, pagekey, shift))
  {
    var data := Obj(map["page" := page]);
    assert Spread(data) == map["page" := page];
    Delivered(pagekey, frameid, "showResult", data, shift);
  }

  /** `doInternalLink(title)` follows the link from the frame's page, or with shift from no page. */
  lemma InternalLinkRoundTrip(pagekey: string, frameid: string, title: Value, shift: bool, lineup: seq<Listener.PageElement>)
    ensures var msg := Sent(pagekey, frameid, "doInternalLink", Obj(map["title" := title]), shift);
      && Listener.IsAction(msg, "doInternalLink")
      && Listener.Route(msg, lineup) == Listener.InternalLink(title, Anchor(lineup, pagekey, shift))
  {
    var data := Obj(map["title" := title]);
    assert Spread(data) == map["title" := title];
    Delivered(pagekey, frameid, "doInternalLink", data, shift);
  }

  /** `importer(pages)` shows the importer for exactly those pages. */
  lemma ImporterRoundTrip(pagekey: string, frameid: string, pages: Value, shift: bool, lineup: seq<Listener.PageElement>)
    ensures var msg := Sent(pagekey, frameid, "importer", Obj(map["pages" := pages]), shift);
      && Listener.IsAction(msg, "importer")
      && Listener.Route(msg, lineup) == Listener.Import(pages, Anchor(lineup, pagekey, shift))
  {
    var data := Obj(map["pages" := pages]);
    assert Spread(data) == map["pages" := pages];
    Delivered(pagekey, frameid, "importer", data, shift);
  }

  /**
   * `resize()` reaches the frame that sent it: the host resizes a frame with
   * the sender's id on a page with the sender's key exactly when the lineup
   * holds one, and otherwise only logs.
   */
  lemma ResizeRoundTrip(pagekey: string, frameid: string, shift: bool, lineup: seq<Listener.PageElement>)
    requires Listener.SelectorSafe(frameid)
    ensures var msg := Sent(pagekey, frameid, "resize", Obj(map[]), shift);
      && Listener.FrameIdOf(msg) == Str(frameid)
      && var e := Listener.Route(msg, lineup);
      && (e.Resize? <==> Hosts(lineup, pagekey, frameid))
      && (e.Resize? ==> lineup[e.pageIndex].key == pagekey && lineup[e.pageIndex].frameIds[e.frameIndex] == frameid)
      && (!e.Resize? ==> e.Log?)
  {
    var data := Obj(map[]);
    assert Spread(data) == map[];
    Delivered(pagekey, frameid, "resize", data, shift);
  }

  /**
   * A frame created by the host and greeted with its advertisement: its
   * `resize()` is the request that `ResizeRoundTrip` routes.
   */
  method GreetAndResize(parentIsSelf: bool, pagekey: string, r: nat, shift: bool) returns (sent: Option<Value>)
    requires r < 1_000_000_000_000_000_000
    ensures parentIsSelf ==> sent == None
    ensures !parentIsSelf ==> sent == Some(Sent(pagekey, Listener.FrameId(r), "resize", Obj(map[]), shift))
  {
    var frameid := Listener.FrameId(r);
    var messenger := new Messenger.WikiMessenger(parentIsSelf);
    messenger.AcceptIdentifiers(Listener.Advertisement(pagekey, frameid));
    Handshake(None, pagekey, frameid);
    sent := messenger.Resize(shift);
  }
}
