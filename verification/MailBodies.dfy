/** What the webhook reads of the provider's JSON (resend-webhook.ts): the event's kind, the mail's id and the first address it went to. */
module MailBodies {
  import opened Prelude
  import opened Addresses
  import opened MailTables
  import GiftBodies

  /** `v?.key` of a JSON value: only an object has members of these names. */
  function Member(v: Option<GiftBodies.Value>, key: string): Option<GiftBodies.Value> {
    if v.Some? && v.value.Record? then GiftBodies.Get(v.value.fields, key) else None
  }

  function TextOf(v: Option<GiftBodies.Value>): Option<string> {
    if v.Some? && v.value.Text? then Some(v.value.text) else None
  }

  /** An empty id or address is as good as none: every use of either asks first whether it is there. */
  function SomeText(v: Option<GiftBodies.Value>): Option<string> {
    if TextOf(v) == Some("") then None else TextOf(v)
  }

  function FirstOf(v: Option<GiftBodies.Value>): Option<GiftBodies.Value> {
    if v.Some? && v.value.List? && v.value.items != [] then Some(v.value.items[0]) else None
  }

  /** A bounce is hard only when it says so: any other, or none, is a soft one. */
  function KindOf(kind: Option<string>, bounce: Option<string>): Kind {
    if kind == Some("email.delivered") then Delivered
    else if kind == Some("email.failed") then SendFailed
    else if kind == Some("email.bounced") then if bounce == Some("Permanent") then HardBounce else SoftBounce
    else if kind == Some("email.suppressed") then ProviderSuppressed
    else if kind == Some("email.complained") then Complained
    else Unhandled
  }

  /** The event a body holds; none when it does not parse, or to nothing with members. `idOf` names the provider's mail ids. */
  function ReadEvent(parsed: Option<GiftBodies.Value>, idOf: string -> MailId): Option<Event> {
    if parsed.None? || !(parsed.value.Record? || parsed.value.List?) then None
    else
      var data := Member(parsed, "data");
      var id, to := SomeText(Member(data, "email_id")), SomeText(FirstOf(Member(data, "to")));
      Some(Event(
        KindOf(TextOf(Member(parsed, "type")), TextOf(Member(Member(data, "bounce"), "type"))),
        if id.Some? then Some(idOf(id.value)) else None,
        if to.Some? then Some(Read(to.value)) else None))
  }

  /** What may write a permanent stop: the provider's own list, or a bounce that says it is permanent, and nothing else however shaped. */
  lemma PermanentMeans(parsed: Option<GiftBodies.Value>, idOf: string -> MailId)
    requires ReadEvent(parsed, idOf).Some?
    ensures
      var kind := TextOf(Member(parsed, "type"));
      var bounce := TextOf(Member(Member(Member(parsed, "data"), "bounce"), "type"));
      Permanent(ReadEvent(parsed, idOf).value.kind) <==>
        kind == Some("email.suppressed") || (kind == Some("email.bounced") && bounce == Some("Permanent"))
  {
    assert "email.delivered"[6] != "email.suppressed"[6] && "email.failed"[6] != "email.suppressed"[6];
    assert "email.delivered"[6] != "email.bounced"[6] && "email.failed"[6] != "email.bounced"[6] && "email.bounced"[6] != "email.suppressed"[6];
  }
}
