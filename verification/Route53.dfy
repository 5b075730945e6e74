/**
 Route 53 as the ownership registry uses it (providers/dns/route53/route53.go): every call to the API is numbered and
 may be refused, or take effect without being answered, and a DELETE that does not name the stored values is rejected.
 */
module Route53 {
  import opened Wrappers
  import opened Quoting
  import opened DnsApi

  datatype Key = Key(name: string, kind: RecordType)

  // A hosted zone: the raw values stored under every name and type.
  type Zone = map<Key, seq<string>>

  datatype Error = Unsupported | Unavailable | InvalidChangeBatch | UnmanagedRecord | OwnershipMismatch

  datatype Action = Upsert | Delete

  /** The zone after a request, the number of API calls made so far and what the request returned. */
  datatype Reply = Reply(zone: Zone, calls: nat, error: Option<Error>)

  /** Names are compared without their trailing dot. */
  function Undotted(name: string): string {
    if name != "" && name[|name| - 1] == '.' then name[..|name| - 1] else name
  }

  function KeyOf(name: string, kind: RecordType): Key {
    Key(Undotted(name), kind)
  }

  function Values(z: Zone, name: string, kind: RecordType): seq<string> {
    if KeyOf(name, kind) in z then z[KeyOf(name, kind)] else []
  }

  predicate HasValue(rs: seq<string>, value: string) {
    exists i :: 0 <= i < |rs| && Untxt(rs[i]) == value
  }

  function RemoveValue(rs: seq<string>, value: string): seq<string> {
    if rs == [] then []
    else
      var n := |rs| - 1;
      var kept := RemoveValue(rs[..n], value);
      if Untxt(rs[n]) != value then kept + [rs[n]] else kept
  }

  function One(value: string, kind: RecordType): string {
    if kind == TXT then Txt(value) else value
  }

  /** One change batch: an UPSERT replaces the values, a DELETE must name exactly the values stored. */
  function Change(z: Zone, n: nat, api: Api, action: Action, name: string, kind: RecordType,
                  values: seq<string>): Reply {
    if !api(n).Acts() then Reply(z, n + 1, Some(Unavailable))
    else
      var key := KeyOf(name, kind);
      var fits := action == Upsert || (key in z && z[key] == values);
      Reply(if !fits then z else if action == Upsert then z[key := values] else z - {key}, n + 1,
            if !api(n).ok then Some(Unavailable) else if fits then None else Some(InvalidChangeBatch))
  }

  // ---------- the requests ----------

  function EnsureTxt(z: Zone, n: nat, api: Api, r: Record): Reply {
    if !api(n).ok then Reply(z, n + 1, Some(Unavailable))
    else
      var values := Values(z, r.name, TXT);
      if HasValue(values, r.value) then Reply(z, n + 1, None)
      else Change(z, n + 1, api, Upsert, r.name, TXT, values + [One(r.value, TXT)])
  }

  function EnsureMain(z: Zone, n: nat, api: Api, r: Record): Reply {
    if !api(n).ok then Reply(z, n + 1, Some(Unavailable))
    else if !api(n + 1).ok then Reply(z, n + 2, Some(Unavailable))
    else
      var owners := Values(z, r.name, TXT);
      var owned := HasValue(owners, r.tag);
      if Values(z, r.name, r.kind) != [] && !owned then Reply(z, n + 2, Some(UnmanagedRecord))
      else
        var c := Change(z, n + 2, api, Upsert, r.name, r.kind, [One(r.value, r.kind)]);
        if c.error.Some? || owned then c
        else Change(c.zone, c.calls, api, Upsert, r.name, TXT, owners + [One(r.tag, TXT)])
  }

  function EnsureRecord(z: Zone, n: nat, api: Api, r: Record): Reply {
    if r.kind.Unknown? then Reply(z, n, Some(Unsupported))
    else if r.kind == TXT then EnsureTxt(z, n, api, r)
    else EnsureMain(z, n, api, r)
  }

  function DeleteTxt(z: Zone, n: nat, api: Api, r: Record): Reply {
    var owners := Values(z, r.name, TXT);
    if !HasValue(owners, r.value) then Reply(z, n, Some(OwnershipMismatch))
    else
      var rest := RemoveValue(owners, r.value);
      if rest == [] then Change(z, n, api, Delete, r.name, TXT, owners)
      else Change(z, n, api, Upsert, r.name, TXT, rest)
  }

  /** Removes the value of the main record; a DELETE that Route 53 rejects counts as already done. */
  function DeleteValue(z: Zone, n: nat, api: Api, r: Record): Reply {
    var rest := RemoveValue(Values(z, r.name, r.kind), r.value);
    if rest == [] then
      var c := Change(z, n, api, Delete, r.name, r.kind, [One(r.value, r.kind)]);
      if c.error == Some(InvalidChangeBatch) then c.(error := None) else c
    else Change(z, n, api, Upsert, r.name, r.kind, rest)
  }

  /** Removes the ownership tag, given the TXT values read when the request began. */
  function DeleteTag(z: Zone, n: nat, api: Api, r: Record, owners: seq<string>): Reply {
    var rest := RemoveValue(owners, r.tag);
    if rest == [] then Change(z, n, api, Delete, r.name, TXT, [One(r.tag, TXT)])
    else Change(z, n, api, Upsert, r.name, TXT, rest)
  }

  function DeleteMain(z: Zone, n: nat, api: Api, r: Record): Reply {
    var owners := Values(z, r.name, TXT);
    if !HasValue(owners, r.tag) then Reply(z, n, Some(OwnershipMismatch))
    else if !api(n).ok then Reply(z, n + 1, Some(Unavailable))
    else
      var c := DeleteValue(z, n + 1, api, r);
      if c.error.Some? then c else DeleteTag(c.zone, c.calls, api, r, owners)
  }

  function DeleteRecord(z: Zone, n: nat, api: Api, r: Record): Reply {
    if !api(n).ok then Reply(z, n + 1, Some(Unavailable))
    else if r.kind == TXT then DeleteTxt(z, n + 1, api, r)
    else DeleteMain(z, n + 1, api, r)
  }

  // ---------- the provider ----------

  method ContainsValue(rs: seq<string>, value: string) returns (has: bool)
    ensures has == HasValue(rs, value)
  {
    for i := 0 to |rs|
      invariant forall j :: 0 <= j < i ==> Untxt(rs[j]) != value
    {
      if Untxt(rs[i]) == value { return true; }
    }
    return false;
  }

  method DropValue(rs: seq<string>, value: string) returns (out: seq<string>)
    ensures out == RemoveValue(rs, value)
  {
    out := [];
    for i := 0 to |rs|
      invariant out == RemoveValue(rs[..i], value)
    {
      assert rs[..i + 1][..i] == rs[..i];
      if Untxt(rs[i]) != value { out := out + [rs[i]]; }
    }
    assert rs[..|rs|] == rs;
  }

  class Provider {
    var zone: Zone
    var calls: nat
    const api: Api

    constructor (zone: Zone, api: Api)
      ensures this.zone == zone && calls == 0 && this.api == api
    {
      this.zone, this.calls, this.api := zone, 0, api;
    }

    method Records(name: string, kind: RecordType) returns (values: seq<string>, err: Option<Error>)
      modifies this`calls
      ensures calls == old(calls) + 1
      ensures err == if api(old(calls)).ok then None else Some(Unavailable)
      ensures err.None? ==> values == Values(zone, name, kind)
    {
      calls := calls + 1;
      if !api(calls - 1).ok { return [], Some(Unavailable); }
      return Values(zone, name, kind), None;
    }

    method ApplyChange(action: Action, name: string, kind: RecordType, values: seq<string>)
      returns (err: Option<Error>)
      modifies this
      ensures Reply(zone, calls, err) == Change(old(zone), old(calls), api, action, name, kind, values)
    {
      calls := calls + 1;
      var answer := api(calls - 1);
      if !answer.Acts() { return Some(Unavailable); }
      var key := KeyOf(name, kind);
      err := None;
      if action == Upsert {
        zone := zone[key := values];
      } else if key in zone && zone[key] == values {
        zone := zone - {key};
      } else {
        err := Some(InvalidChangeBatch);
      }
      if !answer.ok { return Some(Unavailable); }
    }

    method Ensure(r: Record) returns (err: Option<Error>)
      modifies this
      ensures Reply(zone, calls, err) == EnsureRecord(old(zone), old(calls), api, r)
    {
      hide HasValue, Change;
      if r.kind.Unknown? { return Some(Unsupported); }
      var values, listed := Records(r.name, r.kind);
      if listed.Some? { return listed; }
      if r.kind == TXT {
        var has := ContainsValue(values, r.value);
        if !has {
          err := ApplyChange(Upsert, r.name, TXT, values + [One(r.value, TXT)]);
          return;
        }
        return None;
      }
      var owners, read := Records(r.name, TXT);
      if read.Some? { return read; }
      var owned := ContainsValue(owners, r.tag);
      if |values| > 0 && !owned { return Some(UnmanagedRecord); }
      err := ApplyChange(Upsert, r.name, r.kind, [One(r.value, r.kind)]);
      if err.Some? { return; }
      if !owned {
        err := ApplyChange(Upsert, r.name, TXT, owners + [One(r.tag, TXT)]);
      }
    }

    method Remove(r: Record) returns (err: Option<Error>)
      modifies this
      ensures Reply(zone, calls, err) == DeleteRecord(old(zone), old(calls), api, r)
    {
      hide HasValue, RemoveValue, Change;
      var owners, read := Records(r.name, TXT);
      if read.Some? { return read; }
      var owned := ContainsValue(owners, r.tag);
      if !owned && r.kind != TXT { return Some(OwnershipMismatch); }
      if r.kind == TXT {
        var has := ContainsValue(owners, r.value);
        if !has { return Some(OwnershipMismatch); }
        var previous := owners;
        owners := DropValue(owners, r.value);
        if |owners| == 0 {
          err := ApplyChange(Delete, r.name, TXT, previous);
        } else {
          err := ApplyChange(Upsert, r.name, TXT, owners);
        }
        return;
      }
      var values, listed := Records(r.name, r.kind);
      if listed.Some? { return listed; }
      values := DropValue(values, r.value);
      if |values| == 0 {
        err := ApplyChange(Delete, r.name, r.kind, [One(r.value, r.kind)]);
        if err.Some? && err != Some(InvalidChangeBatch) { return; }
      } else {
        err := ApplyChange(Upsert, r.name, r.kind, values);
        if err.Some? { return; }
      }
      owners := DropValue(owners, r.tag);
      if |owners| == 0 {
        err := ApplyChange(Delete, r.name, TXT, [One(r.tag, TXT)]);
      } else {
        err := ApplyChange(Upsert, r.name, TXT, owners);
      }
    }
  }
}
