// The inbox of notification events: one record per event, written with
// conditional writes.
//
// Each table operation is atomic. A claim is up to three of them; what other
// workers do in between is the subject of InboxClaims.dfy.

module Inbox {
  import opened Options
  import Decimal

  datatype Key = Key(pk: string, sk: string)

  type Item = map<string, string>

  type Table = map<Key, Item>

  datatype Event = Event(tenant: string, dedupe: string, id: string, kind: string)

  const PROCESSING := "PROCESSING"
  const COMPLETED := "COMPLETED"
  const FAILED := "FAILED"

  function InboxKey(tenant: string, dedupe: string): Key {
    Key("TENANT#" + tenant, "DEDUPE#" + dedupe)
  }

  // Different events never share a record.
  lemma KeysAreDistinct(tenant: string, dedupe: string, otherTenant: string, otherDedupe: string)
    ensures InboxKey(tenant, dedupe) == InboxKey(otherTenant, otherDedupe)
       <==> tenant == otherTenant && dedupe == otherDedupe
  {
    var k, l := InboxKey(tenant, dedupe), InboxKey(otherTenant, otherDedupe);
    assert k.pk[7..] == tenant && l.pk[7..] == otherTenant;
    assert k.sk[7..] == dedupe && l.sk[7..] == otherDedupe;
  }

  function Field(item: Item, name: string): string {
    if name in item then item[name] else ""
  }

  // The status of a record; no record has none.
  function Status(t: Table, key: Key): string {
    if key in t then Field(t[key], "status") else ""
  }

  function Upper(text: string): string {
    seq(|text|, i requires 0 <= i < |text| => if 'a' <= text[i] <= 'z' then text[i] - 'a' + 'A' else text[i])
  }

  // ----- the three writes -----

  function NewItem(e: Event, now: string): Item {
    var key := InboxKey(e.tenant, e.dedupe);
    map["PK" := key.pk, "SK" := key.sk, "tenantId" := e.tenant, "dedupeKey" := e.dedupe, "eventId" := e.id,
        "eventType" := e.kind, "status" := PROCESSING, "firstSeenAt" := now, "updatedAt" := now]
  }

  function KeyOf(e: Event): Key {
    InboxKey(e.tenant, e.dedupe)
  }

  // A new record: its key, the event, and that it is being processed since now.
  predicate IsNew(item: Item, e: Event, now: string) {
    && item.Keys == {"PK", "SK", "tenantId", "dedupeKey", "eventId", "eventType", "status", "firstSeenAt", "updatedAt"}
    && item["PK"] == "TENANT#" + e.tenant && item["SK"] == "DEDUPE#" + e.dedupe
    && item["tenantId"] == e.tenant && item["dedupeKey"] == e.dedupe
    && item["eventId"] == e.id && item["eventType"] == e.kind
    && item["status"] == "PROCESSING" && item["firstSeenAt"] == now && item["updatedAt"] == now
  }

  // Put, on condition that there is no such record.
  function Put(t: Table, e: Event, now: string): (Table, bool) {
    if KeyOf(e) in t then (t, false) else (t[KeyOf(e) := NewItem(e, now)], true)
  }

  // Back to PROCESSING, on condition that the record is FAILED.
  function Reclaim(t: Table, e: Event, now: string): (Table, bool) {
    if Status(t, KeyOf(e)) != FAILED then (t, false)
    else
      var changed := t[KeyOf(e)] - {"lastError"}
                     + map["status" := PROCESSING, "updatedAt" := now, "eventId" := e.id, "eventType" := e.kind];
      (t[KeyOf(e) := changed], true)
  }

  const RECLAIM_SETS := {"status", "updatedAt", "eventId", "eventType"}

  predicate Reclaimed(before: Item, after: Item, e: Event, now: string) {
    && after.Keys == before.Keys - {"lastError"} + RECLAIM_SETS
    && after["status"] == PROCESSING && after["updatedAt"] == now
    && after["eventId"] == e.id && after["eventType"] == e.kind
    && forall field :: field in before && field in after && field !in RECLAIM_SETS ==> after[field] == before[field]
  }

  // Set some fields of a record, on no condition. A record that does not exist
  // is created.
  function Amend(t: Table, key: Key, fields: Item): Table {
    t[key := Before(t, key) + fields]
  }

  // What a record was before an update: one that is not there has its key.
  function Before(t: Table, key: Key): Item {
    if key in t then t[key] else map["PK" := key.pk, "SK" := key.sk]
  }

  // A record was given a status, and with it a last error or a campaign if
  // there is one; everything else about it is kept.
  predicate Marked(before: Item, after: Item, status: string, now: string, error: Option<string>, campaign: string) {
    && after.Keys == before.Keys + {"status", "updatedAt"} + (if error.Some? then {"lastError"} else {})
                     + (if campaign != "" then {"campaignId"} else {})
    && after["status"] == status && after["updatedAt"] == now
    && (error.Some? ==> after["lastError"] == error.value)
    && (campaign != "" ==> after["campaignId"] == campaign)
    && (forall field :: field in before && field !in {"status", "updatedAt", "lastError", "campaignId"} ==>
         after[field] == before[field])
    && (error.None? && "lastError" in before ==> after["lastError"] == before["lastError"])
    && (campaign == "" && "campaignId" in before ==> after["campaignId"] == before["campaignId"])
  }

  function WithCampaign(fields: Item, campaign: string): Item {
    if campaign == "" then fields else fields["campaignId" := campaign]
  }

  function CompletedFields(now: string, campaign: string): Item {
    WithCampaign(map["status" := COMPLETED, "updatedAt" := now], campaign)
  }

  function FailedFields(now: string, error: string, campaign: string): Item {
    var brief := if |error| > 512 then error[..512] else error;
    WithCampaign(map["status" := FAILED, "updatedAt" := now, "lastError" := brief], campaign)
  }

  lemma CompletionMarks(before: Item, now: string, campaign: string)
    ensures Marked(before, before + CompletedFields(now, campaign), "COMPLETED", now, None, campaign)
  {
  }

  lemma FailureMarks(before: Item, now: string, error: string, campaign: string)
    ensures Marked(before, before + FailedFields(now, error, campaign), "FAILED", now,
                   Some(if |error| > 512 then error[..512] else error), campaign)
  {
  }

  // ----- update expressions -----

  datatype Expression = Expression(
    assignments: seq<(string, string)>,   // of a name placeholder to a value placeholder
    names: map<string, string>,
    values: map<string, string>)

  // What the table does with an expression.
  function Assigned(item: Item, x: Expression, n: nat): Item
    requires n <= |x.assignments|
  {
    if n == 0 then item
    else
      var (name, value) := x.assignments[n - 1];
      var before := Assigned(item, x, n - 1);
      if name in x.names && value in x.values then before[x.names[name] := x.values[value]] else before
  }

  function Combined(fields: seq<(string, string)>): Item {
    if fields == [] then map[] else Combined(fields[..|fields| - 1])[fields[|fields| - 1].0 := fields[|fields| - 1].1]
  }

  lemma CombinedMore(fields: seq<(string, string)>, next: (string, string))
    ensures Combined(fields + [next]) == Combined(fields)[next.0 := next.1]
  {
    assert (fields + [next])[..|fields|] == fields;
  }

  // The fields the two updates list, the campaign only if there is one.
  function Listed(fields: seq<(string, string)>, campaign: string): seq<(string, string)> {
    if campaign == "" then fields else fields + [("campaignId", campaign)]
  }

  lemma ListedIsWithCampaign(fields: seq<(string, string)>, campaign: string)
    ensures Combined(Listed(fields, campaign)) == WithCampaign(Combined(fields), campaign)
  {
    CombinedMore(fields, ("campaignId", campaign));
  }

  lemma CompletedFieldsAreListed(now: string, campaign: string)
    ensures Combined(Listed([("status", COMPLETED), ("updatedAt", now)], campaign)) == CompletedFields(now, campaign)
  {
    var fields := [("status", COMPLETED), ("updatedAt", now)];
    CombinedMore([], fields[0]);
    CombinedMore([fields[0]], fields[1]);
    assert [] + [fields[0]] == [fields[0]] && [fields[0]] + [fields[1]] == fields;
    ListedIsWithCampaign(fields, campaign);
  }

  lemma FailedFieldsAreListed(now: string, error: string, campaign: string)
    requires |error| <= 512
    ensures Combined(Listed([("status", FAILED), ("updatedAt", now), ("lastError", error)], campaign))
         == FailedFields(now, error, campaign)
  {
    var fields := [("status", FAILED), ("updatedAt", now), ("lastError", error)];
    CombinedMore([], fields[0]);
    CombinedMore([fields[0]], fields[1]);
    CombinedMore([fields[0], fields[1]], fields[2]);
    assert [] + [fields[0]] == [fields[0]] && [fields[0]] + [fields[1]] == [fields[0], fields[1]];
    assert [fields[0], fields[1]] + [fields[2]] == fields;
    ListedIsWithCampaign(fields, campaign);
  }

  function NameKey(index: nat): string {
    "#field" + Decimal.Figures(index)
  }

  function ValueKey(index: nat): string {
    ":value" + Decimal.Figures(index)
  }

  lemma PlaceholdersDiffer(i: nat, j: nat)
    requires i != j
    ensures NameKey(i) != NameKey(j) && ValueKey(i) != ValueKey(j)
  {
    Decimal.FiguresAreUnique(i, j);
    assert NameKey(i)[6..] == Decimal.Figures(i) && NameKey(j)[6..] == Decimal.Figures(j);
    assert ValueKey(i)[6..] == Decimal.Figures(i) && ValueKey(j)[6..] == Decimal.Figures(j);
  }

  // Assignment number i sets field number i, for the first n fields.
  ghost predicate Expresses(x: Expression, fields: seq<(string, string)>, n: nat) {
    && n == |x.assignments| <= |fields|
    && forall i: nat :: i < n ==>
         && x.assignments[i] == (NameKey(i), ValueKey(i))
         && NameKey(i) in x.names && x.names[NameKey(i)] == fields[i].0
         && ValueKey(i) in x.values && x.values[ValueKey(i)] == fields[i].1
  }

  method BuildExpression(fields: seq<(string, string)>) returns (x: Expression)
    ensures Expresses(x, fields, |fields|)
  {
    x := Expression([], map[], map[]);
    for i := 0 to |fields|
      invariant Expresses(x, fields, i)
    {
      var nameKey, valueKey := NameKey(i), ValueKey(i);
      forall j: nat | j < i
        ensures NameKey(j) != nameKey && ValueKey(j) != valueKey
      {
        PlaceholdersDiffer(i, j);
      }
      x := Expression(x.assignments + [(nameKey, valueKey)], x.names[nameKey := fields[i].0],
                      x.values[valueKey := fields[i].1]);
    }
  }

  lemma {:induction false} ExpressionSetsFields(item: Item, x: Expression, fields: seq<(string, string)>, n: nat)
    requires Expresses(x, fields, |fields|) && n <= |fields|
    ensures Assigned(item, x, n) == item + Combined(fields[..n])
  {
    if n > 0 {
      ExpressionSetsFields(item, x, fields, n - 1);
      assert fields[..n][..n - 1] == fields[..n - 1];
    }
  }

  // ----- the program's operations -----

  // The table as one worker sees it: every read may return an old version.
  class InboxTable {
    var records: Table
    var versions: seq<Table>

    ghost predicate Valid()
      reads this
    {
      versions != [] && versions[|versions| - 1] == records
    }

    constructor ()
      ensures Valid() && records == map[]
    {
      records, versions := map[], [map[]];
    }

    method PutItem(e: Event, now: string) returns (ok: bool)
      requires Valid()
      modifies this
      ensures Valid()
      ensures ok <==> KeyOf(e) !in old(records)
      ensures !ok ==> records == old(records) && versions == old(versions)
      ensures ok ==> KeyOf(e) in records && records == old(records)[KeyOf(e) := records[KeyOf(e)]]
      ensures ok ==> IsNew(records[KeyOf(e)], e, now)
      ensures (records, ok) == Put(old(records), e, now)
    {
      ok := KeyOf(e) !in records;
      if ok {
        records := records[KeyOf(e) := NewItem(e, now)];
        versions := versions + [records];
      }
    }

    // A read that returns the record as it was in some version.
    method GetItem(key: Key, seen: nat) returns (item: Option<Item>)
      requires seen < |versions|
      ensures item == if key in versions[seen] then Some(versions[seen][key]) else None
    {
      item := if key in versions[seen] then Some(versions[seen][key]) else None;
    }

    // A FAILED record is taken back into processing: its error is gone, it
    // names the new delivery, and everything else about it is kept.
    method UpdateIfFailed(e: Event, now: string) returns (ok: bool)
      requires Valid()
      modifies this
      ensures Valid()
      ensures ok <==> Status(old(records), KeyOf(e)) == FAILED
      ensures !ok ==> records == old(records)
      ensures ok ==> KeyOf(e) in records && records == old(records)[KeyOf(e) := records[KeyOf(e)]]
      ensures ok ==> Reclaimed(old(records)[KeyOf(e)], records[KeyOf(e)], e, now)
      ensures (records, ok) == Reclaim(old(records), e, now)
    {
      ok := KeyOf(e) in records && Field(records[KeyOf(e)], "status") == FAILED;
      if ok {
        var item := records[KeyOf(e)] - {"lastError"};
        item := item["status" := PROCESSING]["updatedAt" := now]["eventId" := e.id]["eventType" := e.kind];
        records := records[KeyOf(e) := item];
        versions := versions + [records];
        assert item == Reclaim(old(records), e, now).0[KeyOf(e)];
      }
    }

    method UpdateItem(key: Key, x: Expression)
      requires Valid()
      modifies this
      ensures Valid()
      ensures records == old(records)[key := Assigned(Amend(old(records), key, map[])[key], x, |x.assignments|)]
    {
      var item := if key in records then records[key] else map["PK" := key.pk, "SK" := key.sk];
      assert item + map[] == item;
      for i := 0 to |x.assignments|
        invariant item == Assigned(Amend(records, key, map[])[key], x, i)
        invariant Valid() && records == old(records)
      {
        var (name, value) := x.assignments[i];
        if name in x.names && value in x.values {
          item := item[x.names[name] := x.values[value]];
        }
      }
      records := records[key := item];
      versions := versions + [records];
    }

    // `claim_notification_event`, when no other worker acts in between: it
    // claims a record that is not there, or that is FAILED and reads so.
    method Claim(e: Event, now: string, seen: nat) returns (claimed: bool)
      requires Valid() && seen < |versions|
      modifies this
      ensures Valid()
      ensures claimed <==> KeyOf(e) !in old(records)
                           || (Status(old(records), KeyOf(e)) == FAILED
                               && Upper(Status(old(versions)[seen], KeyOf(e))) == FAILED)
      ensures !claimed ==> records == old(records)
      ensures claimed ==> KeyOf(e) in records && records == old(records)[KeyOf(e) := records[KeyOf(e)]]
      ensures claimed ==> if KeyOf(e) in old(records) then Reclaimed(old(records)[KeyOf(e)], records[KeyOf(e)], e, now)
                          else IsNew(records[KeyOf(e)], e, now)
    {
      claimed := PutItem(e, now);
      if !claimed {
        var existing := GetItem(KeyOf(e), seen);
        if existing.Some? && Upper(Field(existing.value, "status")) == FAILED {
          claimed := UpdateIfFailed(e, now);
        }
      }
    }

    method UpdateEvent(tenant: string, dedupe: string, fields: seq<(string, string)>)
      requires Valid()
      modifies this
      ensures Valid() && records == Amend(old(records), InboxKey(tenant, dedupe), Combined(fields))
    {
      var x := BuildExpression(fields);
      var key := InboxKey(tenant, dedupe);
      ghost var before := Before(records, key);
      assert before + map[] == before;
      ExpressionSetsFields(before, x, fields, |fields|);
      assert fields[..|fields|] == fields;
      UpdateItem(key, x);
    }

    method CompleteEvent(tenant: string, dedupe: string, now: string, campaign: string)
      requires Valid()
      modifies this
      ensures Valid() && records == Amend(old(records), InboxKey(tenant, dedupe), CompletedFields(now, campaign))
      ensures Marked(Before(old(records), InboxKey(tenant, dedupe)), records[InboxKey(tenant, dedupe)],
                     "COMPLETED", now, None, campaign)
    {
      CompletedFieldsAreListed(now, campaign);
      CompletionMarks(Before(records, InboxKey(tenant, dedupe)), now, campaign);
      UpdateEvent(tenant, dedupe, Listed([("status", COMPLETED), ("updatedAt", now)], campaign));
    }

    method FailEvent(tenant: string, dedupe: string, now: string, error: string, campaign: string)
      requires Valid()
      modifies this
      ensures Valid() && records == Amend(old(records), InboxKey(tenant, dedupe), FailedFields(now, error, campaign))
      ensures Marked(Before(old(records), InboxKey(tenant, dedupe)), records[InboxKey(tenant, dedupe)],
                     "FAILED", now, Some(if |error| > 512 then error[..512] else error), campaign)
    {
      var brief := if |error| > 512 then error[..512] else error;
      FailedFieldsAreListed(now, brief, campaign);
      FailureMarks(Before(records, InboxKey(tenant, dedupe)), now, error, campaign);
      UpdateEvent(tenant, dedupe, Listed([("status", FAILED), ("updatedAt", now), ("lastError", brief)], campaign));
    }
  }
}
