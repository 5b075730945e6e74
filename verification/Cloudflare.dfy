/**
 Cloudflare as the ownership registry uses it (providers/dns/cloudflare/cloudflare.go): every record is an entry of its
 own with an id, and every call to the API is numbered and may be refused, or take effect without being answered.
 */
module Cloudflare {
  import opened Wrappers
  import opened DnsApi

  datatype Entry = Entry(id: nat, name: string, kind: RecordType, content: string)

  /** The entries of a zone, oldest first, and the id the next one gets. */
  datatype Zone = Zone(entries: seq<Entry>, next: nat)

  datatype Error = Unavailable | UnmanagedRecord | OwnershipMismatch

  datatype Reply = Reply(zone: Zone, calls: nat, error: Option<Error>)

  function List(es: seq<Entry>, name: string, kind: RecordType): seq<Entry> {
    if es == [] then []
    else
      var n := |es| - 1;
      var listed := List(es[..n], name, kind);
      if es[n].name == name && es[n].kind == kind then listed + [es[n]] else listed
  }

  function SetContent(es: seq<Entry>, id: nat, content: string): seq<Entry> {
    if es == [] then []
    else
      var n := |es| - 1;
      SetContent(es[..n], id, content) + [if es[n].id == id then es[n].(content := content) else es[n]]
  }

  function Without(es: seq<Entry>, id: nat): seq<Entry> {
    if es == [] then []
    else
      var n := |es| - 1;
      var kept := Without(es[..n], id);
      if es[n].id == id then kept else kept + [es[n]]
  }

  /** The first entry with the content. */
  function First(es: seq<Entry>, content: string): Option<Entry> {
    if es == [] then None
    else
      var n := |es| - 1;
      var found := First(es[..n], content);
      if found.Some? then found else if es[n].content == content then Some(es[n]) else None
  }

  // ---------- API calls ----------

  /** The reply to a call whose effect is w. */
  function Made(z: Zone, w: Zone, n: nat, api: Api): Reply {
    Reply(if api(n).Acts() then w else z, n + 1, if api(n).ok then None else Some(Unavailable))
  }

  function Create(z: Zone, n: nat, api: Api, name: string, kind: RecordType, content: string): Reply {
    Made(z, Zone(z.entries + [Entry(z.next, name, kind, content)], z.next + 1), n, api)
  }

  function Update(z: Zone, n: nat, api: Api, id: nat, content: string): Reply {
    Made(z, z.(entries := SetContent(z.entries, id, content)), n, api)
  }

  function Remove(z: Zone, n: nat, api: Api, id: nat): Reply {
    Made(z, z.(entries := Without(z.entries, id)), n, api)
  }

  // ---------- the requests ----------

  /** Adds the TXT value beside whatever TXT values the name has, once. */
  function EnsureTxt(z: Zone, n: nat, api: Api, name: string, content: string): Reply {
    if !api(n).ok then Reply(z, n + 1, Some(Unavailable))
    else if First(List(z.entries, name, TXT), content).Some? then Reply(z, n + 1, None)
    else Create(z, n + 1, api, name, TXT, content)
  }

  function WriteMain(z: Zone, n: nat, api: Api, r: Record): Reply {
    var mains := List(z.entries, r.name, r.kind);
    if mains == [] then Create(z, n, api, r.name, r.kind, r.value)
    else if |mains| > 1 then Reply(z, n, Some(UnmanagedRecord))
    else Update(z, n, api, mains[0].id, r.value)
  }

  function EnsureMain(z: Zone, n: nat, api: Api, r: Record): Reply {
    if !api(n).ok then Reply(z, n + 1, Some(Unavailable))
    else if !api(n + 1).ok then Reply(z, n + 2, Some(Unavailable))
    else
      var owned := First(List(z.entries, r.name, TXT), r.tag).Some?;
      if List(z.entries, r.name, r.kind) != [] && !owned then Reply(z, n + 2, Some(UnmanagedRecord))
      else
        var c := WriteMain(z, n + 2, api, r);
        if c.error.Some? || owned then c else EnsureTxt(c.zone, c.calls, api, r.name, r.tag)
  }

  function EnsureRecord(z: Zone, n: nat, api: Api, r: Record): Reply {
    if r.kind == TXT then EnsureTxt(z, n, api, r.name, r.value) else EnsureMain(z, n, api, r)
  }

  /** Deletes those of the listed entries that hold the value, stopping at the first refusal. */
  function RemoveMatching(z: Zone, n: nat, api: Api, mains: seq<Entry>, value: string): Reply
    decreases |mains|
  {
    if mains == [] then Reply(z, n, None)
    else if mains[0].content != value then RemoveMatching(z, n, api, mains[1..], value)
    else
      var c := Remove(z, n, api, mains[0].id);
      if c.error.Some? then c else RemoveMatching(c.zone, c.calls, api, mains[1..], value)
  }

  function DeleteMains(z: Zone, n: nat, api: Api, r: Record): Reply {
    if r.kind == TXT then Reply(z, n, None)
    else if !api(n).ok then Reply(z, n + 1, Some(Unavailable))
    else RemoveMatching(z, n + 1, api, List(z.entries, r.name, r.kind), r.value)
  }

  function DeleteRecord(z: Zone, n: nat, api: Api, r: Record): Reply {
    if !api(n).ok then Reply(z, n + 1, Some(Unavailable))
    else
      var owned := First(List(z.entries, r.name, TXT), Marker(r));
      if owned.None? then Reply(z, n + 1, Some(OwnershipMismatch))
      else
        var c := DeleteMains(z, n + 1, api, r);
        if c.error.Some? then c else Remove(c.zone, c.calls, api, owned.value.id)
  }

  // ---------- the provider ----------

  method FindContent(es: seq<Entry>, content: string) returns (found: Option<Entry>)
    ensures found == First(es, content)
    ensures found.None? ==> forall e :: e in es ==> e.content != content
    ensures found.Some? ==> exists i :: 0 <= i < |es| && es[i] == found.value && es[i].content == content
                                        && forall j :: 0 <= j < i ==> es[j].content != content
  {
    for i := 0 to |es|
      invariant First(es[..i], content) == None
      invariant forall j :: 0 <= j < i ==> es[j].content != content
    {
      assert es[..i + 1][..i] == es[..i];
      if es[i].content == content {
        FirstStays(es, content, i + 1);
        return Some(es[i]);
      }
    }
    assert es[..|es|] == es;
    return None;
  }

  lemma {:induction false} FirstStays(es: seq<Entry>, content: string, i: nat)
    requires i <= |es| && First(es[..i], content).Some?
    ensures First(es, content) == First(es[..i], content)
  {
    if i == |es| {
      assert es[..i] == es;
    } else {
      var n := |es| - 1;
      assert es[..n][..i] == es[..i];
      FirstStays(es[..n], content, i);
    }
  }

  class Provider {
    var zone: Zone
    var calls: nat
    const api: Api

    constructor (zone: Zone, api: Api)
      ensures this.zone == zone && calls == 0 && this.api == api
    {
      this.zone, this.calls, this.api := zone, 0, api;
    }

    method ListAll(name: string, kind: RecordType) returns (listed: seq<Entry>, err: Option<Error>)
      modifies this`calls
      ensures calls == old(calls) + 1
      ensures err == if api(old(calls)).ok then None else Some(Unavailable)
      ensures err.None? ==> listed == List(zone.entries, name, kind)
    {
      calls := calls + 1;
      if !api(calls - 1).ok { return [], Some(Unavailable); }
      return List(zone.entries, name, kind), None;
    }

    method CreateEntry(name: string, kind: RecordType, content: string) returns (err: Option<Error>)
      modifies this
      ensures Reply(zone, calls, err) == Create(old(zone), old(calls), api, name, kind, content)
    {
      calls := calls + 1;
      if api(calls - 1).Acts() { zone := Zone(zone.entries + [Entry(zone.next, name, kind, content)], zone.next + 1); }
      return if api(calls - 1).ok then None else Some(Unavailable);
    }

    method UpdateEntry(id: nat, content: string) returns (err: Option<Error>)
      modifies this
      ensures Reply(zone, calls, err) == Update(old(zone), old(calls), api, id, content)
    {
      calls := calls + 1;
      if api(calls - 1).Acts() { zone := zone.(entries := SetContent(zone.entries, id, content)); }
      return if api(calls - 1).ok then None else Some(Unavailable);
    }

    method DeleteEntry(id: nat) returns (err: Option<Error>)
      modifies this
      ensures Reply(zone, calls, err) == Remove(old(zone), old(calls), api, id)
    {
      calls := calls + 1;
      if api(calls - 1).Acts() { zone := zone.(entries := Without(zone.entries, id)); }
      return if api(calls - 1).ok then None else Some(Unavailable);
    }

    method EnsureSingleTxt(name: string, content: string) returns (err: Option<Error>)
      modifies this
      ensures Reply(zone, calls, err) == EnsureTxt(old(zone), old(calls), api, name, content)
    {
      var existing, listed := ListAll(name, TXT);
      if listed.Some? { return listed; }
      var found := FindContent(existing, content);
      if found.Some? { return None; }
      err := CreateEntry(name, TXT, content);
    }

    method Ensure(r: Record) returns (err: Option<Error>)
      modifies this
      ensures Reply(zone, calls, err) == EnsureRecord(old(zone), old(calls), api, r)
    {
      hide First, List, Create, Update, EnsureTxt;
      if r.kind == TXT {
        err := EnsureSingleTxt(r.name, r.value);
        return;
      }
      var owners, read := ListAll(r.name, TXT);
      if read.Some? { return read; }
      var owned := FindContent(owners, r.tag);
      var mains, listed := ListAll(r.name, r.kind);
      if listed.Some? { return listed; }
      if |mains| > 0 && owned.None? { return Some(UnmanagedRecord); }
      if |mains| == 0 {
        err := CreateEntry(r.name, r.kind, r.value);
      } else if |mains| > 1 {
        return Some(UnmanagedRecord);
      } else {
        err := UpdateEntry(mains[0].id, r.value);
      }
      if err.Some? || owned.Some? { return; }
      err := EnsureSingleTxt(r.name, r.tag);
    }

    method Delete(r: Record) returns (err: Option<Error>)
      modifies this
      ensures Reply(zone, calls, err) == DeleteRecord(old(zone), old(calls), api, r)
    {
      hide First, List, Remove;
      var owners, read := ListAll(r.name, TXT);
      if read.Some? { return read; }
      var owned := FindContent(owners, Marker(r));
      if owned.None? { return Some(OwnershipMismatch); }
      if r.kind != TXT {
        var mains, listed := ListAll(r.name, r.kind);
        if listed.Some? { return listed; }
        ghost var whole := RemoveMatching(zone, calls, api, mains, r.value);
        for i := 0 to |mains|
          invariant RemoveMatching(zone, calls, api, mains[i..], r.value) == whole
        {
          assert mains[i..][1..] == mains[i + 1..];
          if mains[i].content == r.value {
            err := DeleteEntry(mains[i].id);
            if err.Some? { return; }
          }
        }
      }
      err := DeleteEntry(owned.value.id);
    }
  }
}
