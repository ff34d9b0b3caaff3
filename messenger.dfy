/**
 * The frame side of the message protocol (client/wiki-messenger.js): a page
 * running inside the frame keeps the identifiers the host advertised and
 * wraps every request in `{wiki: {action, ...data, keepLineup, ...identifiers}}`.
 * `window.parent.postMessage` is returned as the message that would be sent
 * (`None` when nothing is sent); the shift state of the current event is a
 * parameter.
 */
module Messenger {
  import opened Wrappers
  import opened Json

  /**
   * The identifiers after `acceptIdentifiers` sees a message: only a frame
   * takes them, and only from a message with an own `wiki` property; an
   * absent `identifiers` there replaces the old value by `undefined`.
   */
  function Accepted(insideFrame: bool, ids: Option<Value>, data: Value): (r: Option<Value>)
    requires insideFrame ==> data != Null
    requires insideFrame && data.Obj? && "wiki" in data.fields ==> data.fields["wiki"] != Null
    ensures !insideFrame ==> r == ids
    ensures insideFrame && !(data.Obj? && "wiki" in data.fields) ==> r == ids
    ensures insideFrame && data.Obj? && "wiki" in data.fields ==>
      (r.Some? <==> data.fields["wiki"].Obj? && "identifiers" in data.fields["wiki"].fields)
    ensures insideFrame && data.Obj? && "wiki" in data.fields && r.Some? ==>
      r.value == data.fields["wiki"].fields["identifiers"]
  {
    if insideFrame && data.Obj? && "wiki" in data.fields then Property(data.fields["wiki"], "identifiers")
    else ids
  }

  /**
   * The `wiki` object of an outgoing message: later spreads override earlier
   * keys, so the identifiers win over everything, `keepLineup` wins over the
   * data, and the data wins over the action name.
   */
  function Envelope(action: string, data: Value, shift: bool, ids: Value): (env: map<string, Value>)
    ensures env.Keys == {"action", "keepLineup"} + Spread(data).Keys + Spread(ids).Keys
    ensures forall k :: k in Spread(ids) ==> env[k] == Spread(ids)[k]
    ensures "keepLineup" !in Spread(ids) ==> env["keepLineup"] == Bool(shift)
    ensures "action" !in Spread(ids) ==>
      env["action"] == if "action" in Spread(data) then Spread(data)["action"] else Str(action)
    ensures forall k :: k in Spread(data) && k != "keepLineup" && k !in Spread(ids) ==> env[k] == Spread(data)[k]
  {
    map["action" := Str(action)] + Spread(data) + map["keepLineup" := Bool(shift)] + Spread(ids)
  }

  /**
   * What `post(action, data)` sends: nothing outside a frame or before
   * truthy identifiers arrived, otherwise the wrapped envelope.
   */
  function Outgoing(insideFrame: bool, ids: Option<Value>, action: string, data: Value, shift: bool): (msg: Option<Value>)
    ensures msg.Some? <==> insideFrame && TruthyOpt(ids)
    ensures msg.Some? ==>
      && msg.value.Obj? && msg.value.fields.Keys == {"wiki"}
      && msg.value.fields["wiki"] == Obj(Envelope(action, data, shift, ids.value))
  {
    if insideFrame && TruthyOpt(ids) then Some(Obj(map["wiki" := Obj(Envelope(action, data, shift, ids.value))]))
    else None
  }

  class WikiMessenger {
    var insideFrame: bool
    /** `None` while `this.identifiers` is `undefined`. */
    var identifiers: Option<Value>

    /** `parentIsSelf` is `window.parent === window`. */
    constructor(parentIsSelf: bool)
      ensures insideFrame == !parentIsSelf
      ensures identifiers == None
    {
      insideFrame := !parentIsSelf;
      identifiers := None;
    }

    method AcceptIdentifiers(data: Value)
      requires insideFrame ==> data != Null
      requires insideFrame && data.Obj? && "wiki" in data.fields ==> data.fields["wiki"] != Null
      modifies this`identifiers
      ensures identifiers == Accepted(insideFrame, old(identifiers), data)
    {
      if !insideFrame {
        return;
      }
      if data.Obj? && "wiki" in data.fields {
        identifiers := Property(data.fields["wiki"], "identifiers");
      }
    }

    method Post(action: string, data: Value, shift: bool) returns (sent: Option<Value>)
      ensures sent == Outgoing(insideFrame, identifiers, action, data, shift)
    {
      if !insideFrame {
        return None;
      }
      if !TruthyOpt(identifiers) {
        return None;
      }
      var env := map["action" := Str(action)] + Spread(data);
      env := env + map["keepLineup" := Bool(shift)];
      env := env + Spread(identifiers.value);
      sent := Some(Obj(map["wiki" := Obj(env)]));
    }

    method ShowResult(page: Value, shift: bool) returns (sent: Option<Value>)
      ensures sent == Outgoing(insideFrame, identifiers, "showResult", Obj(map["page" := page]), shift)
    {
      sent := Post("showResult", Obj(map["page" := page]), shift);
    }

    method DoInternalLink(title: Value, shift: bool) returns (sent: Option<Value>)
      ensures sent == Outgoing(insideFrame, identifiers, "doInternalLink", Obj(map["title" := title]), shift)
    {
      sent := Post("doInternalLink", Obj(map["title" := title]), shift);
    }

    method Importer(pages: Value, shift: bool) returns (sent: Option<Value>)
      ensures sent == Outgoing(insideFrame, identifiers, "importer", Obj(map["pages" := pages]), shift)
    {
      sent := Post("importer", Obj(map["pages" := pages]), shift);
    }

    method Resize(shift: bool) returns (sent: Option<Value>)
      ensures sent == Outgoing(insideFrame, identifiers, "resize", Obj(map[]), shift)
    {
      sent := Post("resize", Obj(map[]), shift);
    }
  }
}
