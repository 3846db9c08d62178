/**
 No accepted delivery is lost (webhook.ts, webhook-spool.ts, webhook-replay.ts): requests that store or spool, inserts that land
 late, a sweep that turns files into rows, and crashes between any two of their steps.
 */
module Spool {
  import opened Prelude
  import opened GiftBodies
  import opened Gifts

  // ---------- what a file holds ----------

  function HeaderEntries(headers: seq<Header>): seq<Entry> {
    if headers == [] then [] else
      HeaderEntries(headers[..|headers| - 1]) + [Entry(headers[|headers| - 1].name, Text(headers[|headers| - 1].value))]
  }

  /** `JSON.stringify(row)`, as the value it parses back to; `iso` writes an instant. */
  function FileOf(row: Payload, iso: int -> string): Value {
    Value.Record([
      Entry("body", Text(row.delivery.body)),
      Entry("headers", Value.Record(HeaderEntries(row.headers))),
      Entry("partnerDonationId", if row.delivery.partner.None? then Null else Text(row.delivery.partner.value)),
      Entry("receivedAt", Text(iso(row.receivedAt)))])
  }

  function HeadersOf(entries: seq<Entry>): Option<seq<Header>> {
    if entries == [] then Some([]) else
      var rest, last := HeadersOf(entries[..|entries| - 1]), entries[|entries| - 1];
      if rest.Some? && last.value.Text? then Some(rest.value + [Header(last.key, last.value.text)]) else None
  }

  /** `parseEntry`: anything that is not a whole delivery is none. */
  function ParseEntry(content: Option<Value>, readDate: string -> Option<int>): Option<Payload> {
    if content.None? || !content.value.Record? then None else
      var fields := content.value.fields;
      var body, headers := Get(fields, "body"), Get(fields, "headers");
      var partner, received := Get(fields, "partnerDonationId"), Get(fields, "receivedAt");
      if body.None? || !body.value.Text? || headers.None? || !headers.value.Record? then None
      else if HeadersOf(headers.value.fields).None? then None
      else if partner.None? || !(partner.value.Null? || partner.value.Text?) then None
      else if received.None? || !received.value.Text? || readDate(received.value.text).None? then None
      else Some(Payload(
        Delivery(body.value.text, if partner.value.Null? then None else Some(partner.value.text)),
        HeadersOf(headers.value.fields).value, readDate(received.value.text).value))
  }

  lemma {:induction false} HeadersRead(headers: seq<Header>)
    ensures HeadersOf(HeaderEntries(headers)) == Some(headers)
  {
    if headers != [] {
      var init, last := headers[..|headers| - 1], headers[|headers| - 1];
      HeadersRead(init);
      var entries := HeaderEntries(headers);
      assert entries[..|entries| - 1] == HeaderEntries(init);
      assert headers == init + [last];
    }
  }

  lemma GetSnoc(fields: seq<Entry>, e: Entry, key: string)
    ensures Get(fields + [e], key) == if e.key == key then Some(e.value) else Get(fields, key)
  {
    assert (fields + [e])[..|fields|] == fields;
  }

  lemma GetFour(a: Entry, b: Entry, c: Entry, d: Entry, key: string)
    ensures Get([a, b, c, d], key) ==
      if d.key == key then Some(d.value) else if c.key == key then Some(c.value)
      else if b.key == key then Some(b.value) else if a.key == key then Some(a.value) else None
  {
    GetSnoc([], a, key);
    GetSnoc([a], b, key);
    GetSnoc([a, b], c, key);
    GetSnoc([a, b, c], d, key);
    assert [] + [a] == [a] && [a] + [b] == [a, b] && [a, b] + [c] == [a, b, c] && [a, b, c] + [d] == [a, b, c, d];
  }

  /** Spooling changes nothing: the row read back is the row written. */
  lemma SpooledReadsBack(row: Payload, iso: int -> string, readDate: string -> Option<int>)
    requires readDate(iso(row.receivedAt)) == Some(row.receivedAt)
    ensures ParseEntry(Some(FileOf(row, iso)), readDate) == Some(row)
  {
    HeadersRead(row.headers);
    var fields := FileOf(row, iso).fields;
    assert "body" != "headers" && "body"[0] != "partnerDonationId"[0] && "body"[0] != "receivedAt"[0];
    assert "headers"[0] != "partnerDonationId"[0] && "headers"[0] != "receivedAt"[0] && "partnerDonationId"[0] != "receivedAt"[0];
    GetFour(fields[0], fields[1], fields[2], fields[3], "body");
    GetFour(fields[0], fields[1], fields[2], fields[3], "headers");
    GetFour(fields[0], fields[1], fields[2], fields[3], "partnerDonationId");
    GetFour(fields[0], fields[1], fields[2], fields[3], "receivedAt");
  }
}
