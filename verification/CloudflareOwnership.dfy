/** What Cloudflare requests leave alone, what they undo, and who may touch a name that carries an owner's tag. */
module CloudflareOwnership {
  import opened Wrappers
  import opened DnsApi
  import opened Cloudflare

  // ---------- lists of entries ----------

  function TagsIn(es: seq<Entry>, tags: set<string>): seq<Entry> {
    if es == [] then []
    else
      var n := |es| - 1;
      var found := TagsIn(es[..n], tags);
      if es[n].content in tags then found + [es[n]] else found
  }

  predicate Known(es: seq<Entry>, id: nat) {
    exists i :: 0 <= i < |es| && es[i].id == id
  }

  predicate Distinct(ms: seq<Entry>) {
    forall i, j :: 0 <= i < j < |ms| ==> ms[i].id != ms[j].id
  }

  /** Every id was handed out once, before next. */
  predicate Valid(z: Zone) {
    && (forall i :: 0 <= i < |z.entries| ==> z.entries[i].id < z.next)
    && Distinct(z.entries)
  }

  lemma Appended(es: seq<Entry>, e: Entry)
    ensures forall name, kind :: List(es + [e], name, kind) ==
              if e.name == name && e.kind == kind then List(es, name, kind) + [e] else List(es, name, kind)
    ensures forall id :: Without(es + [e], id) == if e.id == id then Without(es, id) else Without(es, id) + [e]
    ensures forall id, content :: SetContent(es + [e], id, content) ==
              SetContent(es, id, content) + [if e.id == id then e.(content := content) else e]
    ensures forall tags :: TagsIn(es + [e], tags) ==
              if e.content in tags then TagsIn(es, tags) + [e] else TagsIn(es, tags)
    ensures forall content :: First(es + [e], content) ==
              if First(es, content).Some? then First(es, content)
              else if e.content == content then Some(e) else None
  {
    assert (es + [e])[..|es|] == es;
  }

  lemma Split(es: seq<Entry>)
    requires es != []
    ensures es == es[..|es| - 1] + [es[|es| - 1]]
  {
  }

  /** Deleting an entry deletes it from every listing. */
  lemma {:induction false} ListWithout(es: seq<Entry>, id: nat, name: string, kind: RecordType)
    ensures List(Without(es, id), name, kind) == Without(List(es, name, kind), id)
  {
    if es != [] {
      var n := |es| - 1;
      ListWithout(es[..n], id, name, kind);
      Appended(Without(es[..n], id), es[n]);
      Appended(List(es[..n], name, kind), es[n]);
    }
  }

  lemma {:induction false} ListSetContent(es: seq<Entry>, id: nat, content: string, name: string, kind: RecordType)
    ensures List(SetContent(es, id, content), name, kind) == SetContent(List(es, name, kind), id, content)
  {
    if es != [] {
      var n := |es| - 1;
      ListSetContent(es[..n], id, content, name, kind);
      Appended(SetContent(es[..n], id, content), if es[n].id == id then es[n].(content := content) else es[n]);
      Appended(List(es[..n], name, kind), es[n]);
    }
  }

  lemma {:induction false} Unknown(es: seq<Entry>, id: nat, content: string)
    requires !Known(es, id)
    ensures Without(es, id) == es && SetContent(es, id, content) == es
  {
    if es != [] {
      var n := |es| - 1;
      Split(es);
      Unknown(es[..n], id, content);
    }
  }

  lemma {:induction false} Listed(es: seq<Entry>, name: string, kind: RecordType, i: nat)
    requires i < |List(es, name, kind)|
    ensures List(es, name, kind)[i] in es
    ensures List(es, name, kind)[i].name == name && List(es, name, kind)[i].kind == kind
  {
    var n := |es| - 1;
    if i < |List(es[..n], name, kind)| { Listed(es[..n], name, kind, i); }
  }

  lemma {:induction false} FirstIs(es: seq<Entry>, content: string)
    ensures First(es, content).Some? ==> First(es, content).value in es && First(es, content).value.content == content
    ensures First(es, content).None? ==> forall e :: e in es ==> e.content != content
  {
    if es != [] { FirstIs(es[..|es| - 1], content); Split(es); }
  }

  /** In a valid zone an id names entries of one name and type only. */
  lemma OtherListing(z: Zone, name: string, kind: RecordType, e: Entry)
    requires Valid(z) && e in z.entries && (e.name != name || e.kind != kind)
    ensures !Known(List(z.entries, name, kind), e.id)
  {
    var es := List(z.entries, name, kind);
    if Known(es, e.id) {
      var i :| 0 <= i < |es| && es[i].id == e.id;
      Listed(z.entries, name, kind, i);
    }
  }

  lemma {:induction false} ListedOnce(es: seq<Entry>, name: string, kind: RecordType)
    requires Distinct(es)
    ensures Distinct(List(es, name, kind))
  {
    if es != [] {
      var n := |es| - 1;
      ListedOnce(es[..n], name, kind);
      var l := List(es[..n], name, kind);
      forall i | 0 <= i < |l| ensures l[i].id != es[n].id {
        Listed(es[..n], name, kind, i);
        var k :| 0 <= k < n && es[k] == l[i];
      }
      assert Distinct(l + [es[n]]);
    }
  }

  lemma {:induction false} WithoutIn(es: seq<Entry>, id: nat, e: Entry)
    ensures e in Without(es, id) <==> e in es && e.id != id
  {
    if es != [] { WithoutIn(es[..|es| - 1], id, e); Split(es); }
  }

  lemma {:induction false} WithoutValid(es: seq<Entry>, id: nat)
    requires Distinct(es)
    ensures Distinct(Without(es, id))
    ensures |Without(es, id)| <= |es|
    ensures Known(es, id) ==> |Without(es, id)| < |es|
  {
    if es != [] {
      var n := |es| - 1;
      WithoutValid(es[..n], id);
      var w := Without(es[..n], id);
      forall i | 0 <= i < |w| ensures w[i].id != es[n].id { WithoutIn(es[..n], id, w[i]); }
      if Known(es, id) && es[n].id != id {
        var i :| 0 <= i < |es| && es[i].id == id;
        assert es[..n][i].id == id;
      }
    }
  }

  lemma {:induction false} SetContentAt(es: seq<Entry>, id: nat, content: string)
    ensures |SetContent(es, id, content)| == |es|
    ensures forall i :: 0 <= i < |es| ==>
              SetContent(es, id, content)[i] == if es[i].id == id then es[i].(content := content) else es[i]
  {
    if es != [] { SetContentAt(es[..|es| - 1], id, content); }
  }

  // ---------- API calls ----------

  lemma CreateEffect(z: Zone, n: nat, api: Api, name: string, kind: RecordType, content: string)
    requires Valid(z)
    ensures var w := Create(z, n, api, name, kind, content).zone;
            && Valid(w)
            && (forall m, k :: !(m == name && k == kind) ==> List(w.entries, m, k) == List(z.entries, m, k))
            && (api(n).Acts() ==>
                List(w.entries, name, kind) == List(z.entries, name, kind) + [Entry(z.next, name, kind, content)])
  {
    Appended(z.entries, Entry(z.next, name, kind, content));
  }

  lemma UpdateEffect(z: Zone, n: nat, api: Api, e: Entry, content: string)
    requires Valid(z) && e in z.entries
    ensures var w := Update(z, n, api, e.id, content).zone;
            && Valid(w)
            && (forall m, k :: !(m == e.name && k == e.kind) ==> List(w.entries, m, k) == List(z.entries, m, k))
            && (api(n).Acts() ==>
                List(w.entries, e.name, e.kind) == SetContent(List(z.entries, e.name, e.kind), e.id, content))
  {
    hide List, SetContent;
    var w := Update(z, n, api, e.id, content).zone;
    SetContentAt(z.entries, e.id, content);
    forall m, k | !(m == e.name && k == e.kind) ensures List(w.entries, m, k) == List(z.entries, m, k) {
      ListSetContent(z.entries, e.id, content, m, k);
      OtherListing(z, m, k, e);
      Unknown(List(z.entries, m, k), e.id, content);
    }
    ListSetContent(z.entries, e.id, content, e.name, e.kind);
  }

  lemma RemoveEffect(z: Zone, n: nat, api: Api, e: Entry)
    requires Valid(z) && e in z.entries
    ensures var w := Remove(z, n, api, e.id).zone;
            && Valid(w)
            && (forall m, k :: !(m == e.name && k == e.kind) ==> List(w.entries, m, k) == List(z.entries, m, k))
            && (api(n).Acts() ==> List(w.entries, e.name, e.kind) == Without(List(z.entries, e.name, e.kind), e.id))
            && (forall x :: x in z.entries && x.id != e.id ==> x in w.entries)
  {
    hide List, Without;
    var w := Remove(z, n, api, e.id).zone;
    WithoutValid(z.entries, e.id);
    forall x ensures x in Without(z.entries, e.id) <==> x in z.entries && x.id != e.id {
      WithoutIn(z.entries, e.id, x);
    }
    forall m, k | !(m == e.name && k == e.kind) ensures List(w.entries, m, k) == List(z.entries, m, k) {
      ListWithout(z.entries, e.id, m, k);
      OtherListing(z, m, k, e);
      Unknown(List(z.entries, m, k), e.id, "");
    }
    ListWithout(z.entries, e.id, e.name, e.kind);
  }

  // ---------- frame ----------

  /** Nothing differs but the records of one type and the TXT records at one name. */
  ghost predicate SameElsewhere(z: Zone, w: Zone, name: string, kind: RecordType) {
    forall m, k :: !(m == name && k in {kind, TXT}) ==> List(w.entries, m, k) == List(z.entries, m, k)
  }

  /** Either nothing, or one entry more, for content the listing did not have. */
  predicate AddsOnly(before: seq<Entry>, after: seq<Entry>, content: string) {
    || after == before
    || (|after| == |before| + 1 && after[..|before|] == before && after[|before|].content == content
        && First(before, content).None?)
  }

  lemma EnsureTxtFrame(z: Zone, n: nat, api: Api, name: string, content: string)
    requires Valid(z)
    ensures var reply := EnsureTxt(z, n, api, name, content);
            var before, after := List(z.entries, name, TXT), List(reply.zone.entries, name, TXT);
            && Valid(reply.zone)
            && SameElsewhere(z, reply.zone, name, TXT)
            && AddsOnly(before, after, content)
            && (reply.error.None? ==> First(after, content).Some?)
  {
    hide List, First;
    CreateEffect(z, n + 1, api, name, TXT, content);
    Appended(List(z.entries, name, TXT), Entry(z.next, name, TXT, content));
  }

  /** The one record of the type that a successful ensure leaves. */
  predicate Exactly(mains: seq<Entry>, value: string) {
    |mains| == 1 && mains[0].content == value
  }

  lemma WriteMainFrame(z: Zone, n: nat, api: Api, r: Record)
    requires Valid(z)
    ensures var reply := WriteMain(z, n, api, r);
            var before, after := List(z.entries, r.name, r.kind), List(reply.zone.entries, r.name, r.kind);
            && Valid(reply.zone)
            && (forall m, k :: !(m == r.name && k == r.kind) ==> List(reply.zone.entries, m, k) == List(z.entries, m, k))
            && (after == before || Exactly(after, r.value))
            && (reply.error.None? ==> Exactly(after, r.value))
  {
    hide List, SetContent;
    var mains := List(z.entries, r.name, r.kind);
    if mains == [] {
      CreateEffect(z, n, api, r.name, r.kind, r.value);
    } else if |mains| == 1 {
      Listed(z.entries, r.name, r.kind, 0);
      UpdateEffect(z, n, api, mains[0], r.value);
      SetContentAt(mains, mains[0].id, r.value);
    }
  }

  /** The tag is added only at a name without records, after the record itself. */
  lemma EnsureMainFrame(z: Zone, n: nat, api: Api, r: Record)
    requires Valid(z) && r.kind != TXT
    ensures var reply := EnsureMain(z, n, api, r);
            var owners, owners' := List(z.entries, r.name, TXT), List(reply.zone.entries, r.name, TXT);
            var mains, mains' := List(z.entries, r.name, r.kind), List(reply.zone.entries, r.name, r.kind);
            && Valid(reply.zone)
            && SameElsewhere(z, reply.zone, r.name, r.kind)
            && (mains' == mains || Exactly(mains', r.value))
            && AddsOnly(owners, owners', r.tag)
            && (owners' != owners ==> mains == [] && Exactly(mains', r.value))
            && (reply.error.None? ==> First(owners', r.tag).Some? && Exactly(mains', r.value))
  {
    hide List, First, Valid, WriteMain, EnsureTxt, Exactly, AddsOnly;
    WriteMainFrame(z, n + 2, api, r);
    var c := WriteMain(z, n + 2, api, r);
    EnsureTxtFrame(c.zone, c.calls, api, r.name, r.tag);
    NothingAdded(List(z.entries, r.name, TXT), r.tag);
  }

  lemma NothingAdded(es: seq<Entry>, content: string)
    ensures AddsOnly(es, es, content)
  {
  }

  lemma EnsureFrame(z: Zone, n: nat, api: Api, r: Record)
    requires Valid(z)
    ensures var reply := EnsureRecord(z, n, api, r);
            && Valid(reply.zone)
            && SameElsewhere(z, reply.zone, r.name, r.kind)
            && AddsOnly(List(z.entries, r.name, TXT), List(reply.zone.entries, r.name, TXT), Marker(r))
            && (reply.error.None? ==> First(List(reply.zone.entries, r.name, TXT), Marker(r)).Some?)
            && (reply.error.None? && r.kind != TXT ==> Exactly(List(reply.zone.entries, r.name, r.kind), r.value))
  {
    hide List, First, Valid, EnsureTxt, EnsureMain, AddsOnly;
    if r.kind == TXT {
      EnsureTxtFrame(z, n, api, r.name, r.value);
    } else {
      EnsureMainFrame(z, n, api, r);
    }
  }

  /** Entries of es are gone only if they are among ms and hold the value; all of those, if the loop got to its end. */
  predicate Cleared(es: seq<Entry>, after: seq<Entry>, ms: seq<Entry>, value: string, all: bool) {
    && (forall e :: e in after ==> e in es)
    && (forall e :: e in es && (e.content != value || e !in ms) ==> e in after)
    && (all ==> forall e :: e in ms && e.content == value ==> e !in after)
  }

  lemma ListsMember(es: seq<Entry>, e: Entry)
    ensures e in es <==> e in List(es, e.name, e.kind)
  {
    if es != [] { ListsMember(es[..|es| - 1], e); Split(es); }
  }

  lemma {:induction false} RemoveMatchingFrame(z: Zone, n: nat, api: Api, ms: seq<Entry>, value: string,
                                               name: string, kind: RecordType)
    requires Valid(z) && Distinct(ms)
    requires forall e :: e in ms ==> e in z.entries && e.name == name && e.kind == kind
    ensures var reply := RemoveMatching(z, n, api, ms, value);
            && Valid(reply.zone)
            && (forall m, k :: !(m == name && k == kind) ==> List(reply.zone.entries, m, k) == List(z.entries, m, k))
            && Cleared(z.entries, reply.zone.entries, ms, value, reply.error.None?)
    decreases |ms|
  {
    hide List, Valid, Remove;
    if ms != [] {
      if ms[0].content != value {
        RemoveMatchingFrame(z, n, api, ms[1..], value, name, kind);
      } else {
        var c := Remove(z, n, api, ms[0].id);
        RemoveEffect(z, n, api, ms[0]);
        RemoveGone(z, n, api, ms[0]);
        if c.error.None? {
          RemoveMatchingFrame(c.zone, c.calls, api, ms[1..], value, name, kind);
        }
      }
    }
  }

  lemma RemoveGone(z: Zone, n: nat, api: Api, e: Entry)
    requires Valid(z) && e in z.entries
    ensures var c := Remove(z, n, api, e.id);
            if api(n).Acts() then forall x :: x in c.zone.entries <==> x in z.entries && x != e else c.zone == z
    ensures Remove(z, n, api, e.id).error.None? <==> api(n).ok
  {
    forall x ensures x in Without(z.entries, e.id) <==> x in z.entries && x.id != e.id {
      WithoutIn(z.entries, e.id, x);
    }
  }

  /** What is left of the main records: at least those with another value, and none with the value once all is done. */
  predicate MainsLeft(mains: seq<Entry>, after: seq<Entry>, value: string, all: bool) {
    && (forall e :: e in after ==> e in mains)
    && (forall e :: e in mains && e.content != value ==> e in after)
    && (all ==> forall e :: e in after ==> e.content != value)
  }

  lemma DeleteMainsFrame(z: Zone, n: nat, api: Api, r: Record)
    requires Valid(z) && r.kind != TXT
    ensures var reply := DeleteMains(z, n, api, r);
            && Valid(reply.zone)
            && (forall m, k :: !(m == r.name && k == r.kind) ==> List(reply.zone.entries, m, k) == List(z.entries, m, k))
            && MainsLeft(List(z.entries, r.name, r.kind), List(reply.zone.entries, r.name, r.kind), r.value,
                         reply.error.None?)
  {
    hide List, RemoveMatching;
    if api(n).ok {
      var mains := List(z.entries, r.name, r.kind);
      forall e ensures e in mains <==> e in z.entries && e.name == r.name && e.kind == r.kind {
        Members(z.entries, r.name, r.kind, e);
      }
      ListedOnce(z.entries, r.name, r.kind);
      RemoveMatchingFrame(z, n + 1, api, mains, r.value, r.name, r.kind);
      var w := RemoveMatching(z, n + 1, api, mains, r.value).zone;
      forall e ensures e in List(w.entries, r.name, r.kind) <==> e in w.entries && e.name == r.name && e.kind == r.kind {
        Members(w.entries, r.name, r.kind, e);
      }
    }
  }

  lemma Members(es: seq<Entry>, name: string, kind: RecordType, e: Entry)
    ensures e in List(es, name, kind) <==> e in es && e.name == name && e.kind == kind
  {
    ListsMember(es, e);
    var l := List(es, name, kind);
    if e in l {
      var i :| 0 <= i < |l| && l[i] == e;
      Listed(es, name, kind, i);
    }
  }

  lemma OwnerListed(z: Zone, name: string, content: string)
    requires First(List(z.entries, name, TXT), content).Some?
    ensures var e := First(List(z.entries, name, TXT), content).value;
            e in z.entries && e.name == name && e.kind == TXT && e.content == content && e in List(z.entries, name, TXT)
  {
    var l := List(z.entries, name, TXT);
    FirstIs(l, content);
    Members(z.entries, name, TXT, First(l, content).value);
  }

  /** Success removes the first matching TXT entry; failure either did that too, unanswered, or leaves the TXT entries. */
  lemma DeleteFrame(z: Zone, n: nat, api: Api, r: Record)
    requires Valid(z)
    ensures var reply := DeleteRecord(z, n, api, r);
            var owners, owners' := List(z.entries, r.name, TXT), List(reply.zone.entries, r.name, TXT);
            && Valid(reply.zone)
            && SameElsewhere(z, reply.zone, r.name, r.kind)
            && (reply.error.None? ==> First(owners, Marker(r)).Some?)
            && (|| (reply.error.Some? && owners' == owners)
                || (First(owners, Marker(r)).Some? && owners' == Without(owners, First(owners, Marker(r)).value.id)))
            && (reply.error.None? && r.kind != TXT ==>
                MainsLeft(List(z.entries, r.name, r.kind), List(reply.zone.entries, r.name, r.kind), r.value, true))
  {
    hide List, First, Valid, DeleteMains, Remove, MainsLeft, Without;
    var owned := First(List(z.entries, r.name, TXT), Marker(r));
    if api(n).ok && owned.Some? {
      if r.kind != TXT { DeleteMainsFrame(z, n + 1, api, r); } else { NoMains(z, n + 1, api, r); }
      var c := DeleteMains(z, n + 1, api, r);
      if c.error.None? {
        OwnerListed(c.zone, r.name, Marker(r));
        RemoveEffect(c.zone, c.calls, api, owned.value);
        Answered(c.zone, c.calls, api, owned.value.id);
      }
    }
  }

  lemma NoMains(z: Zone, n: nat, api: Api, r: Record)
    requires r.kind == TXT
    ensures DeleteMains(z, n, api, r) == Reply(z, n, None)
  {
  }

  lemma Answered(z: Zone, n: nat, api: Api, id: nat)
    ensures Remove(z, n, api, id).error.None? <==> api(n).ok
    ensures !api(n).Acts() ==> Remove(z, n, api, id).zone == z
    ensures Remove(z, n, api, id).calls == n + 1
  {
  }

  // ---------- what is answered ----------

  /** Main result: an answered ensure is refused exactly if the name has records without the owner's tag, or several. */
  lemma EnsureVerdict(z: Zone, n: nat, api: Api, r: Record)
    requires AlwaysAnswers(api)
    ensures var owned := exists e :: e in List(z.entries, r.name, TXT) && e.content == r.tag;
            var mains := List(z.entries, r.name, r.kind);
            EnsureRecord(z, n, api, r).error ==
            if r.kind != TXT && (|mains| > 1 || (|mains| == 1 && !owned)) then Some(UnmanagedRecord) else None
  {
    hide First, List;
    FirstIs(List(z.entries, r.name, TXT), r.tag);
  }

  /** Main result: and a delete exactly if the name has no TXT entry with the marker. */
  lemma DeleteVerdict(z: Zone, n: nat, api: Api, r: Record)
    requires AlwaysAnswers(api)
    ensures DeleteRecord(z, n, api, r).error ==
            if exists e :: e in List(z.entries, r.name, TXT) && e.content == Marker(r) then None
            else Some(OwnershipMismatch)
  {
    hide First, List, RemoveMatching;
    FirstIs(List(z.entries, r.name, TXT), Marker(r));
    LoopAnswers(z, n + 2, api, List(z.entries, r.name, r.kind), r.value);
  }

  lemma {:induction false} LoopAnswers(z: Zone, n: nat, api: Api, mains: seq<Entry>, value: string)
    requires AlwaysAnswers(api)
    ensures RemoveMatching(z, n, api, mains, value).error.None?
    decreases |mains|
  {
    if mains != [] {
      LoopAnswers(z, n, api, mains[1..], value);
      LoopAnswers(Remove(z, n, api, mains[0].id).zone, n + 1, api, mains[1..], value);
    }
  }

  // ---------- doing it twice, and undoing it ----------

  lemma {:induction false} SetSame(es: seq<Entry>, id: nat, content: string)
    requires forall e :: e in es && e.id == id ==> e.content == content
    ensures SetContent(es, id, content) == es
  {
    if es != [] {
      Split(es);
      SetSame(es[..|es| - 1], id, content);
    }
  }

  /** Main result: once a record has been ensured, ensuring it again changes nothing, and works whenever it is answered. */
  lemma EnsureIsIdempotent(z: Zone, n: nat, api: Api, r: Record, m: nat, later: Api)
    requires Valid(z)
    requires EnsureRecord(z, n, api, r).error.None?
    ensures var done := EnsureRecord(z, n, api, r).zone;
            var again := EnsureRecord(done, m, later, r);
            && again.zone == done
            && (AlwaysAnswers(later) ==> again.error.None?)
  {
    hide List, First, SetContent;
    EnsureFrame(z, n, api, r);
    var done := EnsureRecord(z, n, api, r).zone;
    if r.kind != TXT {
      var mains := List(done.entries, r.name, r.kind);
      Listed(done.entries, r.name, r.kind, 0);
      SetSame(done.entries, mains[0].id, r.value);
    }
  }

  predicate Unclaimed(z: Zone, r: Record) {
    && First(List(z.entries, r.name, TXT), Marker(r)).None?
    && (r.kind != TXT ==> List(z.entries, r.name, r.kind) == [])
  }

  /**
   Main result: deleting a record that was just ensured succeeds and restores the zone's entries exactly when the name
   had no record of that type and no TXT entry equal to the tag.
   */
  lemma EnsureThenDelete(z: Zone, n: nat, r: Record, api: Api)
    requires Valid(z)
    requires AlwaysAnswers(api)
    requires EnsureRecord(z, n, api, r).error.None?
    ensures var done := EnsureRecord(z, n, api, r);
            var undone := DeleteRecord(done.zone, done.calls, api, r);
            (undone.error.None? && undone.zone.entries == z.entries) <==> Unclaimed(z, r)
  {
    hide List, First, Without, DeleteRecord, EnsureRecord, Valid;
    var done := EnsureRecord(z, n, api, r);
    var undone := DeleteRecord(done.zone, done.calls, api, r);
    EnsureFrame(z, n, api, r);
    var owners := List(z.entries, r.name, TXT);
    if First(owners, Marker(r)).Some? {
      DeleteFrame(done.zone, done.calls, api, r);
      if undone.error.None? { ShrinksBy(z, r.name, Marker(r)); }
    } else {
      FreshHasNoMain(z, n, r, api);
      UndoFresh(z, n, r, api);
    }
  }

  lemma ShrinksBy(z: Zone, name: string, content: string)
    requires Valid(z) && First(List(z.entries, name, TXT), content).Some?
    ensures var l := List(z.entries, name, TXT); |Without(l, First(l, content).value.id)| < |l|
  {
    var l := List(z.entries, name, TXT);
    ListedOnce(z.entries, name, TXT);
    OwnerListed(z, name, content);
    WithoutValid(l, First(l, content).value.id);
  }

  lemma FreshHasNoMain(z: Zone, n: nat, r: Record, api: Api)
    requires EnsureRecord(z, n, api, r).error.None?
    requires First(List(z.entries, r.name, TXT), Marker(r)).None?
    ensures Unclaimed(z, r)
  {
    hide List, First;
  }

  lemma UndoFresh(z: Zone, n: nat, r: Record, api: Api)
    requires Valid(z) && Unclaimed(z, r)
    requires AlwaysAnswers(api)
    ensures var done := EnsureRecord(z, n, api, r);
            var undone := DeleteRecord(done.zone, done.calls, api, r);
            undone.error.None? && undone.zone.entries == z.entries
  {
    hide List, First, Without, EnsureRecord, DeleteMains, Unclaimed;
    var done := EnsureRecord(z, n, api, r);
    var t := Entry(if r.kind == TXT then z.next else z.next + 1, r.name, TXT, Marker(r));
    var left := Zone(z.entries + [t], done.zone.next);
    EnsureFresh(z, n, r, api);
    TagIsFirst(z, r, t);
    if r.kind == TXT {
      NoMains(done.zone, done.calls + 1, api, r);
    } else {
      var a := Entry(z.next, r.name, r.kind, r.value);
      NoMainThere(z, r);
      DeleteOnlyMain(z.entries, a, t, z.next + 2, done.calls + 1, api, r);
      Appended(z.entries, a);
      Appended(z.entries + [a], t);
      Appended(z.entries, t);
    }
    assert DeleteMains(done.zone, done.calls + 1, api, r).zone == left;
    assert First(List(done.zone.entries, r.name, TXT), Marker(r)) == Some(t);
  }

  lemma NoMainThere(z: Zone, r: Record)
    requires Unclaimed(z, r) && r.kind != TXT
    ensures List(z.entries, r.name, r.kind) == []
  {
  }

  lemma TagIsFirst(z: Zone, r: Record, t: Entry)
    requires Valid(z) && Unclaimed(z, r)
    requires t.id >= z.next && t.name == r.name && t.kind == TXT && t.content == Marker(r)
    ensures First(List(z.entries + [t], r.name, TXT), Marker(r)) == Some(t)
    ensures Without(z.entries + [t], t.id) == z.entries
  {
    hide List, First, Without;
    Appended(z.entries, t);
    Appended(List(z.entries, r.name, TXT), t);
    Unknown(z.entries, t.id, "");
  }

  lemma EnsureFresh(z: Zone, n: nat, r: Record, api: Api)
    requires Unclaimed(z, r)
    requires AlwaysAnswers(api)
    ensures var done := EnsureRecord(z, n, api, r);
            && done.error.None?
            && done.zone ==
               if r.kind == TXT then Zone(z.entries + [Entry(z.next, r.name, TXT, r.value)], z.next + 1)
               else Zone(z.entries + [Entry(z.next, r.name, r.kind, r.value)]
                         + [Entry(z.next + 1, r.name, TXT, r.tag)], z.next + 2)
  {
    hide List, First;
    Appended(z.entries, Entry(z.next, r.name, r.kind, r.value));
  }

  lemma DeleteOnlyMain(es: seq<Entry>, a: Entry, t: Entry, next: nat, n: nat, api: Api, r: Record)
    requires r.kind != TXT && a.name == r.name && a.kind == r.kind && a.content == r.value
    requires t.kind == TXT && t.id != a.id && !Known(es, a.id) && List(es, r.name, r.kind) == []
    requires AlwaysAnswers(api)
    ensures var c := DeleteMains(Zone(es + [a] + [t], next), n, api, r);
            c.error.None? && c.zone == Zone(es + [t], next)
  {
    hide List, Without;
    Appended(es, a);
    Appended(es + [a], t);
    Unknown(es, a.id, "");
    assert List(es + [a] + [t], r.name, r.kind) == [a];
    RemoveOne(Zone(es + [a] + [t], next), n + 1, api, a);
  }

  lemma RemoveOne(z: Zone, n: nat, api: Api, a: Entry)
    requires api(n).ok
    ensures RemoveMatching(z, n, api, [a], a.content) == Remove(z, n, api, a.id)
  {
    assert [a][1..] == [];
  }

  // ---------- exclusive ownership ----------

  function Serve(z: Zone, q: Request): Reply {
    if q.remove then DeleteRecord(z, 0, q.api, q.record) else EnsureRecord(z, 0, q.api, q.record)
  }

  predicate OneOwner(owners: seq<Entry>, mains: seq<Entry>, tags: set<string>) {
    var own := TagsIn(owners, tags);
    |own| <= 1 && (own != [] ==> mains != [])
  }

  /** Each name carries at most one owner tag, and only beside an A record. */
  ghost predicate Exclusive(z: Zone, tags: set<string>) {
    && Valid(z)
    && forall name :: OneOwner(List(z.entries, name, TXT), List(z.entries, name, A), tags)
  }

  /** How many of k deletions in a row, the first of them call n, take effect before one is not answered. */
  function Done(n: nat, api: Api, k: nat): (d: nat)
    ensures d <= k
    decreases k
  {
    if k == 0 then 0 else if api(n).ok then 1 + Done(n + 1, api, k - 1) else if api(n).applied then 1 else 0
  }

  predicate Answers(n: nat, api: Api, k: nat) {
    forall i :: n <= i < n + k ==> api(i).ok
  }

  /** A delete whose removal of every A entry of the name took effect, and whose removal of the tag did not. */
  predicate Torn(z: Zone, q: Request) {
    var mains := List(z.entries, q.record.name, A);
    && q.remove && q.record.kind == A
    && First(List(z.entries, q.record.name, TXT), q.record.tag).Some?
    && (forall e :: e in mains ==> e.content == q.record.value)
    && q.api(0).ok && q.api(1).ok
    && Done(2, q.api, |mains|) == |mains| && !(Answers(2, q.api, |mains|) && q.api(2 + |mains|).Acts())
  }

  lemma {:induction false} InTags(es: seq<Entry>, e: Entry, tags: set<string>)
    ensures e in TagsIn(es, tags) <==> e in es && e.content in tags
  {
    if es != [] { InTags(es[..|es| - 1], e, tags); Split(es); }
  }

  lemma {:induction false} TagsWithout(es: seq<Entry>, id: nat, tags: set<string>)
    ensures TagsIn(Without(es, id), tags) == Without(TagsIn(es, tags), id)
  {
    if es != [] {
      var n := |es| - 1;
      TagsWithout(es[..n], id, tags);
      Appended(Without(es[..n], id), es[n]);
      Appended(TagsIn(es[..n], tags), es[n]);
    }
  }

  lemma WithoutOnly(e: Entry, id: nat)
    ensures Without([e], id) == if e.id == id then [] else [e]
  {
    Appended([], e);
    assert [] + [e] == [e];
  }

  /** Where there is one owner, having a tag is being that owner. */
  lemma OwnerIs(owners: seq<Entry>, mains: seq<Entry>, tag: string, tags: set<string>)
    requires tag in tags && OneOwner(owners, mains, tags)
    ensures var own := First(owners, tag);
            if own.Some?
            then TagsIn(owners, tags) == [own.value] && mains != []
                 && TagsIn(Without(owners, own.value.id), tags) == []
            else forall e :: e in TagsIn(owners, tags) ==> e.content != tag
  {
    var own := First(owners, tag);
    FirstIs(owners, tag);
    if own.Some? {
      InTags(owners, own.value, tags);
      TagsWithout(owners, own.value.id, tags);
      WithoutOnly(own.value, own.value.id);
      assert TagsIn(owners, tags) == [own.value];
    } else {
      forall e ensures e in TagsIn(owners, tags) <==> e in owners && e.content in tags { InTags(owners, e, tags); }
    }
  }

  /** Adding at most one tag, and none where there is one, or adding what is no tag, keeps one owner. */
  lemma TagsAfterAdding(before: seq<Entry>, after: seq<Entry>, content: string, tags: set<string>)
    requires AddsOnly(before, after, content)
    ensures content !in tags ==> TagsIn(after, tags) == TagsIn(before, tags)
    ensures |TagsIn(after, tags)| <= |TagsIn(before, tags)| + 1
  {
    if after != before {
      Appended(before, after[|before|]);
      assert after == before + [after[|before|]];
    }
  }

  lemma EnsureKeepsOwner(z: Zone, q: Request, tags: set<string>)
    requires Valid(z) && Ours(q, tags) && !q.remove
    requires OneOwner(List(z.entries, q.record.name, TXT), List(z.entries, q.record.name, A), tags)
    ensures var w := Serve(z, q).zone;
            OneOwner(List(w.entries, q.record.name, TXT), List(w.entries, q.record.name, A), tags)
  {
    hide List, First, AddsOnly, EnsureTxt, EnsureMain, TagsIn, Valid;
    var r, w := q.record, Serve(z, q).zone;
    TagsAfterEnsure(List(z.entries, r.name, TXT), List(w.entries, r.name, TXT), Marker(r), tags, z, q);
    if r.kind == A {
      EnsureMainFrame(z, 0, q.api, r);
    } else {
      EnsureTxtFrame(z, 0, q.api, r.name, r.value);
    }
  }

  lemma TagsAfterEnsure(before: seq<Entry>, after: seq<Entry>, content: string, tags: set<string>, z: Zone, q: Request)
    requires Valid(z) && !q.remove
    requires before == List(z.entries, q.record.name, TXT) && content == Marker(q.record)
    requires after == List(Serve(z, q).zone.entries, q.record.name, TXT)
    ensures content !in tags ==> TagsIn(after, tags) == TagsIn(before, tags)
    ensures |TagsIn(after, tags)| <= |TagsIn(before, tags)| + 1
  {
    hide List, First, AddsOnly, EnsureRecord, TagsIn, Valid;
    EnsureFrame(z, 0, q.api, q.record);
    TagsAfterAdding(before, after, content, tags);
  }

  // ---------- the deletion loop, exactly ----------

  function Ids(es: seq<Entry>): set<nat> {
    set e | e in es :: e.id
  }

  /** The entries without those of the given ids. */
  function Sans(es: seq<Entry>, ids: set<nat>): seq<Entry> {
    if es == [] then []
    else
      var n := |es| - 1;
      var kept := Sans(es[..n], ids);
      if es[n].id in ids then kept else kept + [es[n]]
  }

  lemma SansAppended(es: seq<Entry>, e: Entry, ids: set<nat>)
    ensures Sans(es + [e], ids) == if e.id in ids then Sans(es, ids) else Sans(es, ids) + [e]
  {
    assert (es + [e])[..|es|] == es;
  }

  lemma {:induction false} WithoutIsSans(es: seq<Entry>, id: nat)
    ensures Without(es, id) == Sans(es, {id})
  {
    if es != [] { WithoutIsSans(es[..|es| - 1], id); }
  }

  lemma {:induction false} SansNone(es: seq<Entry>)
    ensures Sans(es, {}) == es
  {
    if es != [] { SansNone(es[..|es| - 1]); Split(es); }
  }

  lemma {:induction false} SansSans(es: seq<Entry>, a: set<nat>, b: set<nat>)
    ensures Sans(Sans(es, a), b) == Sans(es, a + b)
  {
    if es != [] {
      var n := |es| - 1;
      SansSans(es[..n], a, b);
      SansAppended(Sans(es[..n], a), es[n], b);
    }
  }

  lemma {:induction false} ListSans(es: seq<Entry>, ids: set<nat>, name: string, kind: RecordType)
    ensures List(Sans(es, ids), name, kind) == Sans(List(es, name, kind), ids)
  {
    if es != [] {
      var n := |es| - 1;
      ListSans(es[..n], ids, name, kind);
      Appended(Sans(es[..n], ids), es[n]);
      SansAppended(List(es[..n], name, kind), es[n], ids);
    }
  }

  lemma {:induction false} TagsSans(es: seq<Entry>, ids: set<nat>, tags: set<string>)
    ensures TagsIn(Sans(es, ids), tags) == Sans(TagsIn(es, tags), ids)
  {
    if es != [] {
      var n := |es| - 1;
      TagsSans(es[..n], ids, tags);
      Appended(Sans(es[..n], ids), es[n]);
      SansAppended(TagsIn(es[..n], tags), es[n], ids);
    }
  }

  lemma {:induction false} SansMembers(es: seq<Entry>, ids: set<nat>)
    ensures forall e :: e in Sans(es, ids) <==> e in es && e.id !in ids
  {
    if es != [] { SansMembers(es[..|es| - 1], ids); Split(es); }
  }

  lemma IdsSans(es: seq<Entry>, ids: set<nat>)
    ensures Ids(Sans(es, ids)) == Ids(es) - ids
  {
    SansMembers(es, ids);
  }

  lemma {:induction false} TagsFront(es: seq<Entry>, tags: set<string>)
    requires es != []
    ensures TagsIn(es, tags) == (if es[0].content in tags then [es[0]] else []) + TagsIn(es[1..], tags)
  {
    var n := |es| - 1;
    if n > 0 {
      TagsFront(es[..n], tags);
      assert es[..n][1..] == es[1..][..n - 1] && es[1..][n - 1] == es[n];
    }
  }

  /** The loop deletes the entries with the value, in order, as far as the calls take effect. */
  lemma {:induction false} RemoveMatchingShape(z: Zone, n: nat, api: Api, ms: seq<Entry>, value: string)
    ensures var reply, l := RemoveMatching(z, n, api, ms, value), TagsIn(ms, {value});
            && reply.zone == z.(entries := Sans(z.entries, Ids(l[..Done(n, api, |l|)])))
            && (reply.error.None? <==> Answers(n, api, |l|))
            && (reply.error.None? ==> reply.calls == n + |l| && Done(n, api, |l|) == |l|)
    decreases |ms|
  {
    hide Sans, Ids, Without;
    if ms == [] {
      NobodyGone(z.entries);
    } else {
      TagsFront(ms, {value});
      var l, rest := TagsIn(ms, {value}), TagsIn(ms[1..], {value});
      if ms[0].content != value {
        RemoveMatchingShape(z, n, api, ms[1..], value);
        assert l == rest;
      } else {
        var c := Remove(z, n, api, ms[0].id);
        RemoveMatchingShape(c.zone, n + 1, api, ms[1..], value);
        assert l == [ms[0]] + rest && |l| == 1 + |rest|;
        NobodyGone(z.entries);
        OneGone(z.entries, ms[0], rest[..Done(n + 1, api, |rest|)]);
        OneGone(z.entries, ms[0], []);
        assert l[..1 + Done(n + 1, api, |rest|)] == [ms[0]] + rest[..Done(n + 1, api, |rest|)];
        assert l[..1] == [ms[0]] + [];
        assert l[..0] == [];
        assert Answers(n, api, |l|) <==> api(n).ok && Answers(n + 1, api, |rest|);
      }
    }
  }

  lemma NobodyGone(es: seq<Entry>)
    ensures Sans(es, Ids([])) == es
  {
    SansNone(es);
    assert Ids([]) == {};
  }

  lemma OneGone(es: seq<Entry>, e: Entry, others: seq<Entry>)
    ensures Sans(Without(es, e.id), Ids(others)) == Sans(es, Ids([e] + others))
    ensures Sans(Without(es, e.id), Ids([])) == Without(es, e.id)
  {
    WithoutIsSans(es, e.id);
    SansSans(es, {e.id}, Ids(others));
    assert Ids([e] + others) == {e.id} + Ids(others);
    SansNone(Without(es, e.id));
    assert Ids([]) == {};
  }

  lemma {:induction false} AllTagged(es: seq<Entry>, value: string)
    requires forall e :: e in es ==> e.content == value
    ensures TagsIn(es, {value}) == es
  {
    if es != [] {
      var n := |es| - 1;
      Split(es);
      AllTagged(es[..n], value);
    }
  }

  lemma {:induction false} SansAll(es: seq<Entry>, ids: set<nat>)
    requires forall e :: e in es ==> e.id in ids
    ensures Sans(es, ids) == []
  {
    if es != [] {
      Split(es);
      SansAll(es[..|es| - 1], ids);
    }
  }

  lemma PrefixGone(es: seq<Entry>, d: nat)
    requires Distinct(es) && d <= |es|
    ensures Sans(es, Ids(es[..d])) == [] <==> d == |es|
  {
    SansMembers(es, Ids(es[..d]));
    if d < |es| {
      assert es[d].id !in Ids(es[..d]);
      assert es[d] in Sans(es, Ids(es[..d]));
    } else {
      assert es[..d] == es;
      SansAll(es, Ids(es));
    }
  }

  lemma DeleteKeepsOwner(z: Zone, q: Request, tags: set<string>)
    requires Valid(z) && Ours(q, tags) && q.remove
    requires OneOwner(List(z.entries, q.record.name, TXT), List(z.entries, q.record.name, A), tags)
    ensures var w := Serve(z, q).zone;
            OneOwner(List(w.entries, q.record.name, TXT), List(w.entries, q.record.name, A), tags) <==> !Torn(z, q)
  {
    hide List, First, TagsIn, Without, Valid, DeleteRecord, Torn;
    if q.record.kind == A {
      DeleteAKeepsOwner(z, q, tags);
    } else {
      var r := q.record;
      DeleteFrame(z, 0, q.api, r);
      var owners := List(z.entries, r.name, TXT);
      if First(owners, r.value).Some? {
        var id := First(owners, r.value).value.id;
        TagsWithout(owners, id, tags);
        NoLonger(TagsIn(owners, tags), id);
      }
      NotTorn(z, q);
    }
  }

  lemma {:induction false} NoLonger(es: seq<Entry>, id: nat)
    ensures |Without(es, id)| <= |es|
  {
    if es != [] { NoLonger(es[..|es| - 1], id); }
  }

  lemma NotTorn(z: Zone, q: Request)
    requires q.record.kind != A
    ensures !Torn(z, q)
  {
  }

  lemma DeleteAKeepsOwner(z: Zone, q: Request, tags: set<string>)
    requires Valid(z) && Ours(q, tags) && q.remove && q.record.kind == A
    requires OneOwner(List(z.entries, q.record.name, TXT), List(z.entries, q.record.name, A), tags)
    ensures var w := Serve(z, q).zone;
            OneOwner(List(w.entries, q.record.name, TXT), List(w.entries, q.record.name, A), tags) <==> !Torn(z, q)
  {
    hide List, First, TagsIn, Without, Valid, RemoveMatching, Remove;
    var r, w := q.record, Serve(z, q).zone;
    var owners, mains := List(z.entries, r.name, TXT), List(z.entries, r.name, A);
    OwnerIs(owners, mains, r.tag, tags);
    if q.api(0).ok && First(owners, r.tag).Some? && q.api(1).ok {
      DeleteFrame(z, 0, q.api, r);
      DeleteMainsFrame(z, 1, q.api, r);
      var c := RemoveMatching(z, 2, q.api, mains, r.value);
      Answered(c.zone, c.calls, q.api, First(owners, r.tag).value.id);
      if c.error.None? {
        OwnerListed(c.zone, r.name, r.tag);
        RemoveEffect(c.zone, c.calls, q.api, First(owners, r.tag).value);
      }
      if forall e :: e in mains ==> e.content == r.value {
        MatchingMainsLeft(z, q);
      } else {
        var e :| e in mains && e.content != r.value;
        assert e in List(c.zone.entries, r.name, A);
      }
    }
  }

  /** Where all A entries hold the value, they are gone exactly if all the deletions took effect. */
  lemma MatchingMainsLeft(z: Zone, q: Request)
    requires Valid(z)
    requires forall e :: e in List(z.entries, q.record.name, A) ==> e.content == q.record.value
    ensures var mains := List(z.entries, q.record.name, A);
            var c := RemoveMatching(z, 2, q.api, mains, q.record.value);
            && (List(c.zone.entries, q.record.name, A) == [] <==> Done(2, q.api, |mains|) == |mains|)
            && (c.error.None? <==> Answers(2, q.api, |mains|))
            && (c.error.None? ==> c.calls == 2 + |mains| && Done(2, q.api, |mains|) == |mains|)
  {
    hide List, Valid, RemoveMatching, Sans, Ids, TagsIn;
    var r := q.record;
    var mains := List(z.entries, r.name, A);
    RemoveMatchingShape(z, 2, q.api, mains, r.value);
    AllTagged(mains, r.value);
    var d := Done(2, q.api, |mains|);
    ListSans(z.entries, Ids(mains[..d]), r.name, A);
    ValidIsDistinct(z);
    ListedOnce(z.entries, r.name, A);
    PrefixGone(mains, d);
  }

  lemma ValidIsDistinct(z: Zone)
    requires Valid(z)
    ensures Distinct(z.entries)
  {
  }

  lemma ServeFrame(z: Zone, q: Request)
    requires Valid(z)
    ensures Valid(Serve(z, q).zone) && SameElsewhere(z, Serve(z, q).zone, q.record.name, q.record.kind)
  {
    hide EnsureRecord, DeleteRecord, List, First, Valid, SameElsewhere;
    if q.remove { DeleteFrame(z, 0, q.api, q.record); } else { EnsureFrame(z, 0, q.api, q.record); }
  }

  /** A request, answered or not, keeps ownership exclusive exactly when it is not a torn delete. */
  lemma RequestKeepsExclusive(z: Zone, q: Request, tags: set<string>)
    requires Exclusive(z, tags) && Ours(q, tags)
    ensures Exclusive(Serve(z, q).zone, tags) <==> !Torn(z, q)
  {
    hide Serve, OneOwner, List, Valid, Torn;
    var w, r := Serve(z, q).zone, q.record;
    ServeFrame(z, q);
    assert OneOwner(List(z.entries, r.name, TXT), List(z.entries, r.name, A), tags);
    if q.remove {
      DeleteKeepsOwner(z, q, tags);
    } else {
      EnsureKeepsOwner(z, q, tags);
      EnsureIsNotTorn(z, q);
    }
    forall name | !Torn(z, q) ensures OneOwner(List(w.entries, name, TXT), List(w.entries, name, A), tags) {
      assert OneOwner(List(z.entries, name, TXT), List(z.entries, name, A), tags);
    }
  }

  lemma EnsureIsNotTorn(z: Zone, q: Request)
    requires !q.remove
    ensures !Torn(z, q)
  {
  }

  predicate OwnedBy(z: Zone, name: string, owner: string) {
    First(List(z.entries, name, TXT), owner).Some?
  }

  /** A request about an A record at a name that carries another owner's tag. */
  predicate Intrudes(z: Zone, q: Request, owner: string, tags: set<string>) {
    && q.record.kind == A && q.record.tag in tags && owner in tags && owner != q.record.tag
    && OwnedBy(z, q.record.name, owner)
  }

  /** While a name carries one owner's tag, a request about it under another tag fails and leaves the zone as it is. */
  lemma OthersAreRefused(z: Zone, q: Request, owner: string, tags: set<string>)
    requires OneOwner(List(z.entries, q.record.name, TXT), List(z.entries, q.record.name, A), tags)
    requires Intrudes(z, q, owner, tags)
    ensures Serve(z, q).zone == z && Serve(z, q).error.Some?
  {
    hide List, First, TagsIn, Without;
    var owners, mains := List(z.entries, q.record.name, TXT), List(z.entries, q.record.name, A);
    OwnerIs(owners, mains, owner, tags);
    OwnerIs(owners, mains, q.record.tag, tags);
    FirstIs(owners, owner);
    FirstIs(owners, q.record.tag);
  }

  /** zones follows qs from its first zone on. */
  predicate Run(zones: seq<Zone>, qs: seq<Request>) {
    && |zones| == |qs| + 1
    && forall i :: 0 <= i < |qs| ==> zones[i + 1] == Serve(zones[i], qs[i]).zone
  }

  ghost predicate NoOwners(z: Zone, tags: set<string>) {
    forall name :: TagsIn(List(z.entries, name, TXT), tags) == []
  }

  lemma {:induction false} StaysExclusive(zones: seq<Zone>, qs: seq<Request>, tags: set<string>, n: nat)
    requires Run(zones, qs) && n <= |qs|
    requires Valid(zones[0]) && NoOwners(zones[0], tags)
    requires forall i :: 0 <= i < n ==> Ours(qs[i], tags) && !Torn(zones[i], qs[i])
    ensures Exclusive(zones[n], tags)
  {
    hide Serve, Torn, Ours, List, Valid;
    if n > 0 {
      StaysExclusive(zones, qs, tags, n - 1);
      assert zones[n - 1 + 1] == Serve(zones[n - 1], qs[n - 1]).zone;
      RequestKeepsExclusive(zones[n - 1], qs[n - 1], tags);
    }
  }

  /**
   Main result: over any run of the owners' requests from a zone without owner tags, whatever calls are refused short
   of a torn delete, each name has at most one owner, only beside an A record, and no other owner changes that name.
   */
  lemma ExclusiveOwnership(zones: seq<Zone>, qs: seq<Request>, tags: set<string>)
    requires Run(zones, qs)
    requires Valid(zones[0]) && NoOwners(zones[0], tags)
    requires forall i :: 0 <= i < |qs| ==> Ours(qs[i], tags) && !Torn(zones[i], qs[i])
    ensures forall i :: 0 <= i <= |qs| ==> Exclusive(zones[i], tags)
    ensures forall i, owner :: 0 <= i < |qs| && Intrudes(zones[i], qs[i], owner, tags) ==> zones[i + 1] == zones[i]
  {
    hide Serve, Torn, Ours, List, Valid, OneOwner, Intrudes;
    forall i | 0 <= i <= |qs| ensures Exclusive(zones[i], tags) {
      StaysExclusive(zones, qs, tags, i);
    }
    forall i, owner | 0 <= i < |qs| && Intrudes(zones[i], qs[i], owner, tags) ensures zones[i + 1] == zones[i] {
      assert zones[i + 1] == Serve(zones[i], qs[i]).zone;
      assert Exclusive(zones[i], tags);
      OthersAreRefused(zones[i], qs[i], owner, tags);
    }
  }

  /** The owner's own request about the name. */
  predicate ByOwner(q: Request, name: string, owner: string) {
    q.record.kind == A && q.record.tag == owner && q.record.name == name
  }

  lemma OwnerKeeps(z: Zone, q: Request, name: string, owner: string, tags: set<string>)
    requires Exclusive(z, tags) && Ours(q, tags) && owner in tags
    requires OwnedBy(z, name, owner) && !ByOwner(q, name, owner)
    ensures OwnedBy(Serve(z, q).zone, name, owner)
    ensures List(Serve(z, q).zone.entries, name, A) == List(z.entries, name, A)
  {
    hide Serve, First, List, OneOwner, Valid;
    ServeFrame(z, q);
    if name == q.record.name {
      if q.record.kind == A {
        assert OneOwner(List(z.entries, name, TXT), List(z.entries, name, A), tags);
        OthersAreRefused(z, q, owner, tags);
      } else {
        ChallengeKeepsTag(z, q, owner);
      }
    }
  }

  lemma ChallengeKeepsTag(z: Zone, q: Request, owner: string)
    requires Valid(z) && q.record.kind == TXT && q.record.value != owner
    requires OwnedBy(z, q.record.name, owner)
    ensures OwnedBy(Serve(z, q).zone, q.record.name, owner)
  {
    hide First, List, SameElsewhere, DeleteRecord, EnsureRecord, Without;
    var r := q.record;
    var before, after := List(z.entries, r.name, TXT), List(Serve(z, q).zone.entries, r.name, TXT);
    FirstIs(before, owner);
    FirstIs(before, r.value);
    FirstIs(after, owner);
    var e := First(before, owner).value;
    if q.remove {
      DeleteFrame(z, 0, q.api, r);
      if First(before, r.value).Some? {
        ListedOnce(z.entries, r.name, TXT);
        WithoutIn(before, First(before, r.value).value.id, e);
      }
    } else {
      EnsureFrame(z, 0, q.api, r);
      assert e in after by { if after != before { assert after == before + [after[|before|]]; } }
    }
  }

  /** Main result: from when a name is an owner's until its owner asks again, its A entries and its owner stay the same. */
  lemma {:induction false} OwnerHoldsTheName(zones: seq<Zone>, qs: seq<Request>, tags: set<string>, name: string,
                                             owner: string, from: nat, to: nat)
    requires Run(zones, qs) && from <= to <= |qs|
    requires Valid(zones[0]) && NoOwners(zones[0], tags) && owner in tags
    requires forall i :: 0 <= i < |qs| ==> Ours(qs[i], tags) && !Torn(zones[i], qs[i])
    requires OwnedBy(zones[from], name, owner)
    requires forall i :: from <= i < to ==> !ByOwner(qs[i], name, owner)
    ensures OwnedBy(zones[to], name, owner)
    ensures List(zones[to].entries, name, A) == List(zones[from].entries, name, A) != []
  {
    hide Serve, Torn, Ours, List, OwnedBy, ByOwner, Valid;
    StaysExclusive(zones, qs, tags, to);
    if from < to {
      OwnerHoldsTheName(zones, qs, tags, name, owner, from, to - 1);
      assert zones[to - 1 + 1] == Serve(zones[to - 1], qs[to - 1]).zone;
      StaysExclusive(zones, qs, tags, to - 1);
      OwnerKeeps(zones[to - 1], qs[to - 1], name, owner, tags);
    } else {
      OwnedMeansRecord(zones[to], name, owner, tags);
    }
  }

  lemma OwnedMeansRecord(z: Zone, name: string, owner: string, tags: set<string>)
    requires Exclusive(z, tags) && owner in tags && OwnedBy(z, name, owner)
    ensures List(z.entries, name, A) != []
  {
    hide First, List, Valid;
    assert OneOwner(List(z.entries, name, TXT), List(z.entries, name, A), tags);
    OwnerIs(List(z.entries, name, TXT), List(z.entries, name, A), owner, tags);
  }

  // ---------- requests cut short ----------

  /** Cut at a free name: the creation of the record took effect, and that of the tag did not. */
  predicate CutAtTag(z: Zone, r: Record, api: Api) {
    && Unclaimed(z, r)
    && api(0).ok && api(1).ok && api(2).Acts() && !(api(2).ok && api(3).ok && api(4).Acts())
  }

  /** An ensure so cut leaves a record that its own owner can never again update or delete. */
  lemma InterruptedEnsureIsStranded(z: Zone, r: Record, api: Api, later: Request)
    requires Valid(z) && r.kind in {A, CNAME} && CutAtTag(z, r, api)
    requires later.record == r
    ensures var left := EnsureRecord(z, 0, api, r);
            && left.error.Some? && Exactly(List(left.zone.entries, r.name, r.kind), r.value)
            && Serve(left.zone, later).zone == left.zone && Serve(left.zone, later).error.Some?
  {
    hide First, List;
    Appended(z.entries, Entry(z.next, r.name, r.kind, r.value));
  }

  /**
   Main result: an ensure that would have succeeded but was cut short can be asked again, and then ends where the
   uncut one would have, if and only if it was not cut between the record and the tag of a free name.
   */
  lemma CutEnsureCanBeAskedAgain(z: Zone, r: Record, api: Api, clean: Api, m: nat, later: Api)
    requires Valid(z) && r.kind in {A, CNAME}
    requires AlwaysAnswers(clean) && AlwaysAnswers(later)
    requires EnsureRecord(z, 0, clean, r).error.None? && EnsureRecord(z, 0, api, r).error.Some?
    ensures var again := EnsureRecord(EnsureRecord(z, 0, api, r).zone, m, later, r);
            && (again.error.None? <==> !CutAtTag(z, r, api))
            && (again.error.None? ==> again.zone == EnsureRecord(z, 0, clean, r).zone)
  {
    hide First, List, Valid, EnsureRecord;
    CutLeaves(z, r, api, clean);
    AnsweredEnsure(z, 0, clean, m, later, r);
    EnsureIsIdempotent(z, 0, clean, r, m, later);
    if CutAtTag(z, r, api) {
      InterruptedEnsureIsStranded(z, r, api, Request(false, r, later));
      AnsweredEnsure(EnsureRecord(z, 0, api, r).zone, 0, later, m, later, r);
    }
  }

  /** An ensure cut elsewhere has done nothing or everything. */
  lemma CutLeaves(z: Zone, r: Record, api: Api, clean: Api)
    requires r.kind in {A, CNAME} && AlwaysAnswers(clean)
    requires EnsureRecord(z, 0, clean, r).error.None? && EnsureRecord(z, 0, api, r).error.Some?
    ensures CutAtTag(z, r, api) || EnsureRecord(z, 0, api, r).zone in {z, EnsureRecord(z, 0, clean, r).zone}
  {
    hide First, List, SetContent;
    Appended(z.entries, Entry(z.next, r.name, r.kind, r.value));
  }

  lemma AnsweredEnsure(z: Zone, n: nat, api: Api, m: nat, also: Api, r: Record)
    requires r.kind in {A, CNAME} && AlwaysAnswers(api) && AlwaysAnswers(also)
    ensures EnsureRecord(z, n, api, r).zone == EnsureRecord(z, m, also, r).zone
    ensures EnsureRecord(z, n, api, r).error == EnsureRecord(z, m, also, r).error
  {
    hide First, List, SetContent;
  }

  /** Deleting the first entry with the content leaves one of them fewer. */
  lemma MarkersLeft(z: Zone, name: string, content: string)
    requires Valid(z) && First(List(z.entries, name, TXT), content).Some?
    ensures var owners := List(z.entries, name, TXT);
            var rest := Without(owners, First(owners, content).value.id);
            |TagsIn(rest, {content})| == |TagsIn(owners, {content})| - 1
  {
    var owners := List(z.entries, name, TXT);
    var e := First(owners, content).value;
    OwnerListed(z, name, content);
    ListedOnce(z.entries, name, TXT);
    TagsWithout(owners, e.id, {content});
    InTags(owners, e, {content});
    TagsAreDistinct(owners, {content});
    WithoutOne(TagsIn(owners, {content}), e);
  }

  lemma {:induction false} TagsAreDistinct(es: seq<Entry>, tags: set<string>)
    requires Distinct(es)
    ensures Distinct(TagsIn(es, tags))
  {
    if es != [] {
      var n := |es| - 1;
      TagsAreDistinct(es[..n], tags);
      var l := TagsIn(es[..n], tags);
      forall i | 0 <= i < |l| ensures l[i].id != es[n].id {
        InTags(es[..n], l[i], tags);
        var k :| 0 <= k < n && es[k] == l[i];
      }
      assert Distinct(l + [es[n]]);
    }
  }

  lemma {:induction false} WithoutOne(es: seq<Entry>, e: Entry)
    requires Distinct(es) && e in es
    ensures |Without(es, e.id)| == |es| - 1
  {
    var n := |es| - 1;
    Split(es);
    if es[n].id == e.id {
      assert !Known(es[..n], e.id);
      Unknown(es[..n], e.id, "");
    } else {
      WithoutOne(es[..n], e);
    }
  }

  /** Main result: a delete asked again after it succeeded is refused if and only if the tag was there just once. */
  lemma SecondDelete(z: Zone, n: nat, api: Api, r: Record, m: nat, later: Api)
    requires Valid(z) && DeleteRecord(z, n, api, r).error.None?
    requires AlwaysAnswers(later)
    ensures var gone := DeleteRecord(z, n, api, r).zone;
            var again := DeleteRecord(gone, m, later, r);
            && (again.error == Some(OwnershipMismatch) <==>
                |TagsIn(List(z.entries, r.name, TXT), {Marker(r)})| == 1)
            && (again.error.Some? <==> again.error == Some(OwnershipMismatch))
            && (again.error.Some? ==> again.zone == gone)
  {
    hide List, First, Valid, TagsIn, Without, DeleteMains;
    var gone := DeleteRecord(z, n, api, r).zone;
    DeleteFrame(z, n, api, r);
    MarkersLeft(z, r.name, Marker(r));
    NoMarker(List(gone.entries, r.name, TXT), Marker(r));
    AllAnswered(gone, m + 1, later, r);
  }

  lemma NoMarker(es: seq<Entry>, content: string)
    ensures First(es, content).None? <==> |TagsIn(es, {content})| == 0
  {
    FirstIs(es, content);
    if First(es, content).Some? {
      InTags(es, First(es, content).value, {content});
    } else if TagsIn(es, {content}) != [] {
      InTags(es, TagsIn(es, {content})[0], {content});
    }
  }

  lemma AllAnswered(z: Zone, n: nat, api: Api, r: Record)
    requires AlwaysAnswers(api)
    ensures DeleteMains(z, n, api, r).error.None?
  {
    if r.kind != TXT {
      AnsweredAlike(z, n + 1, api, n + 1, api, List(z.entries, r.name, r.kind), r.value);
    }
  }

  lemma {:induction false} AnsweredAlike(z: Zone, n: nat, api: Api, m: nat, also: Api, ms: seq<Entry>,
                                         value: string)
    requires forall i :: n <= i < n + |ms| ==> api(i).ok
    requires forall i :: m <= i < m + |ms| ==> also(i).ok
    ensures RemoveMatching(z, n, api, ms, value).zone == RemoveMatching(z, m, also, ms, value).zone
    ensures RemoveMatching(z, n, api, ms, value).error.None?
    decreases |ms|
  {
    if ms != [] {
      if ms[0].content != value {
        AnsweredAlike(z, n, api, m, also, ms[1..], value);
      } else {
        AnsweredAlike(Remove(z, n, api, ms[0].id).zone, n + 1, api, m + 1, also, ms[1..], value);
      }
    }
  }

  lemma TornLeaves(z: Zone, q: Request)
    requires Valid(z) && Torn(z, q)
    ensures var r, torn := q.record, Serve(z, q).zone;
            && torn == RemoveMatching(z, 2, q.api, List(z.entries, r.name, A), r.value).zone
            && List(torn.entries, r.name, A) == []
            && List(torn.entries, r.name, TXT) == List(z.entries, r.name, TXT)
            && Serve(z, q).error.Some? && !MarkerGone(z, r, q.api)
  {
    hide List, First, Valid, RemoveMatching;
    var r := q.record;
    MatchingMainsLeft(z, q);
    DeleteMainsFrame(z, 1, q.api, r);
    AllTagged(List(z.entries, r.name, A), r.value);
    var c := RemoveMatching(z, 2, q.api, List(z.entries, r.name, A), r.value);
    Answered(c.zone, c.calls, q.api, First(List(z.entries, r.name, TXT), r.tag).value.id);
  }

  // ---------- asking for an interrupted delete again ----------

  /** The main entries that the delete is to remove. */
  function Doomed(z: Zone, r: Record): seq<Entry> {
    TagsIn(List(z.entries, r.name, r.kind), {r.value})
  }

  /** The last removal of the delete, that of its TXT entry, took effect. */
  predicate MarkerGone(z: Zone, r: Record, api: Api) {
    var k := |Doomed(z, r)|;
    if r.kind == TXT then api(0).ok && api(1).Acts()
    else api(0).ok && api(1).ok && Answers(2, api, k) && api(2 + k).Acts()
  }

  /** What a delete of an A or CNAME record removes, whichever calls take effect. */
  lemma DeleteShape(z: Zone, n: nat, api: Api, r: Record)
    requires r.kind != TXT && First(List(z.entries, r.name, TXT), r.tag).Some?
    requires api(n).ok && api(n + 1).ok
    ensures var l, id := Doomed(z, r), First(List(z.entries, r.name, TXT), r.tag).value.id;
            var reply := DeleteRecord(z, n, api, r);
            var all := Answers(n + 2, api, |l|);
            && reply.zone == z.(entries :=
                 Sans(z.entries, if all && api(n + 2 + |l|).Acts() then Ids(l) + {id}
                                 else Ids(l[..Done(n + 2, api, |l|)])))
            && (reply.error.None? <==> all && api(n + 2 + |l|).ok)
  {
    hide List, First, RemoveMatching, Sans, Ids, TagsIn, Without;
    var l, id := Doomed(z, r), First(List(z.entries, r.name, TXT), r.tag).value.id;
    var mains := List(z.entries, r.name, r.kind);
    RemoveMatchingShape(z, n + 2, api, mains, r.value);
    var c := RemoveMatching(z, n + 2, api, mains, r.value);
    if c.error.None? {
      assert l[..|l|] == l;
      WithoutIsSans(c.zone.entries, id);
      SansSans(z.entries, Ids(l), {id});
    }
  }

  lemma {:induction false} SansUntouched(es: seq<Entry>, ids: set<nat>)
    requires forall e :: e in es ==> e.id !in ids
    ensures Sans(es, ids) == es
  {
    if es != [] {
      Split(es);
      SansUntouched(es[..|es| - 1], ids);
    }
  }

  /** Removing main entries leaves the TXT entries of the name as they are. */
  lemma TxtUntouched(z: Zone, r: Record, gone: seq<Entry>)
    requires Valid(z) && r.kind != TXT && forall e :: e in gone ==> e in List(z.entries, r.name, r.kind)
    ensures List(Sans(z.entries, Ids(gone)), r.name, TXT) == List(z.entries, r.name, TXT)
  {
    var txts := List(z.entries, r.name, TXT);
    ListSans(z.entries, Ids(gone), r.name, TXT);
    forall t | t in txts ensures t.id !in Ids(gone) {
      Members(z.entries, r.name, TXT, t);
      if t.id in Ids(gone) {
        var e :| e in gone && e.id == t.id;
        Members(z.entries, r.name, r.kind, e);
      }
    }
    SansUntouched(txts, Ids(gone));
  }

  /** From wherever the removals had got to, an answered delete removes exactly the rest. */
  lemma RestIsRemoved(z: Zone, r: Record, gone: seq<Entry>, m: nat, later: Api)
    requires Valid(z) && r.kind != TXT && AlwaysAnswers(later) && gone <= Doomed(z, r)
    requires First(List(z.entries, r.name, TXT), r.tag).Some?
    ensures var left := z.(entries := Sans(z.entries, Ids(gone)));
            var again := DeleteRecord(left, m, later, r);
            var id := First(List(z.entries, r.name, TXT), r.tag).value.id;
            again.error.None? && again.zone == z.(entries := Sans(z.entries, Ids(Doomed(z, r)) + {id}))
  {
    hide List, First, Sans, Ids, DeleteRecord, TagsIn, Valid;
    var l, id := Doomed(z, r), First(List(z.entries, r.name, TXT), r.tag).value.id;
    var left := z.(entries := Sans(z.entries, Ids(gone)));
    var mains := List(z.entries, r.name, r.kind);
    forall e | e in gone ensures e in mains { assert e in l; InTags(mains, e, {r.value}); }
    TxtUntouched(z, r, gone);
    ListSans(z.entries, Ids(gone), r.name, r.kind);
    TagsSans(mains, Ids(gone), {r.value});
    IdsSans(l, Ids(gone));
    DeleteShape(left, m, later, r);
    SansSans(z.entries, Ids(gone), (Ids(l) - Ids(gone)) + {id});
    IdsGrow(gone, l);
    assert Ids(gone) + ((Ids(l) - Ids(gone)) + {id}) == Ids(l) + {id};
  }

  lemma IdsGrow(part: seq<Entry>, whole: seq<Entry>)
    requires part <= whole
    ensures Ids(part) <= Ids(whole)
  {
    forall e | e in part ensures e in whole {
      var i :| 0 <= i < |part| && part[i] == e;
      assert whole[i] == e;
    }
  }

  /**
   Main result: a delete that would have succeeded but was cut short can be asked again and then ends where the uncut
   one would have, unless the cut had got as far as removing the TXT entry. In that case everything is done already,
   and asking again is refused as an ownership mismatch if and only if that entry was the only one with the tag.
   */
  lemma CutDeleteCanBeAskedAgain(z: Zone, r: Record, api: Api, clean: Api, m: nat, later: Api)
    requires Valid(z) && AlwaysAnswers(clean) && AlwaysAnswers(later)
    requires DeleteRecord(z, 0, clean, r).error.None? && DeleteRecord(z, 0, api, r).error.Some?
    ensures var left, done := DeleteRecord(z, 0, api, r).zone, DeleteRecord(z, 0, clean, r).zone;
            var again := DeleteRecord(left, m, later, r);
            if MarkerGone(z, r, api) then
              && left == done
              && (again.error == Some(OwnershipMismatch) <==>
                  |TagsIn(List(z.entries, r.name, TXT), {Marker(r)})| == 1)
            else again.error.None? && again.zone == done
  {
    hide List, First, Sans, Ids, Valid, RemoveMatching, Without, TagsIn, Done;
    if MarkerGone(z, r, api) { SecondDelete(z, 0, clean, r, m, later); }
    if r.kind == TXT {
      NoMains(z, 1, clean, r);
      NoMains(z, 1, api, r);
      NoMains(z, m + 1, later, r);
    } else {
      CutDeleteOfMain(z, r, api, clean, m, later);
    }
  }

  lemma CutDeleteOfMain(z: Zone, r: Record, api: Api, clean: Api, m: nat, later: Api)
    requires Valid(z) && r.kind != TXT && AlwaysAnswers(clean) && AlwaysAnswers(later)
    requires DeleteRecord(z, 0, clean, r).error.None? && DeleteRecord(z, 0, api, r).error.Some?
    ensures var left, done := DeleteRecord(z, 0, api, r).zone, DeleteRecord(z, 0, clean, r).zone;
            var again := DeleteRecord(left, m, later, r);
            if MarkerGone(z, r, api) then left == done else again.error.None? && again.zone == done
  {
    hide List, First, Sans, Ids, Valid, DeleteRecord, TagsIn, Done;
    var l := Doomed(z, r);
    ClaimedFirst(z, r, clean);
    DeleteShape(z, 0, clean, r);
    NobodyGone(z.entries);
    if api(0).ok && api(1).ok {
      DeleteShape(z, 0, api, r);
      if !MarkerGone(z, r, api) { RestIsRemoved(z, r, l[..Done(2, api, |l|)], m, later); }
    } else {
      CutBeforeRemoving(z, r, api);
      RestIsRemoved(z, r, [], m, later);
    }
  }

  lemma ClaimedFirst(z: Zone, r: Record, clean: Api)
    requires DeleteRecord(z, 0, clean, r).error.None? && r.kind != TXT
    ensures First(List(z.entries, r.name, TXT), r.tag).Some?
  {
  }

  lemma CutBeforeRemoving(z: Zone, r: Record, api: Api)
    requires r.kind != TXT && !(api(0).ok && api(1).ok)
    ensures DeleteRecord(z, 0, api, r).zone == z
  {
    hide List, First;
  }

  /** A torn delete that is simply asked again, and answered, ends where an uninterrupted one would have. */
  lemma TornDeleteResumes(z: Zone, q: Request, again: Request)
    requires Valid(z) && Torn(z, q)
    requires again.remove && again.record == q.record && AlwaysAnswers(again.api)
    ensures var w := Serve(Serve(z, q).zone, again);
            w.error.None? && w.zone == Serve(z, again).zone
  {
    hide List, First, Valid, RemoveMatching, DeleteRecord, Done;
    TornLeaves(z, q);
    TornIsOwned(z, q);
    DeleteShape(z, 0, again.api, q.record);
    CutDeleteCanBeAskedAgain(z, q.record, q.api, again.api, 0, again.api);
  }

  /** After a torn delete the name is free to the next owner, whose tag then stands beside the old one. */
  lemma TornDeleteSharesTheName(z: Zone, q: Request, next: Request)
    requires Valid(z) && Torn(z, q)
    requires !next.remove && next.record.kind == A && next.record.name == q.record.name
    requires AlwaysAnswers(next.api)
    ensures var w := Serve(Serve(z, q).zone, next);
            && w.error.None?
            && OwnedBy(w.zone, q.record.name, q.record.tag)
            && OwnedBy(w.zone, q.record.name, next.record.tag)
  {
    hide List, First, Valid, RemoveMatching, DeleteRecord, EnsureRecord, AddsOnly;
    var r, torn := q.record, Serve(z, q).zone;
    TornLeaves(z, q);
    ServeFrame(z, q);
    FreeNameIsTaken(torn, next);
    EnsureFrame(torn, 0, next.api, next.record);
    var before, after := List(torn.entries, r.name, TXT), List(Serve(torn, next).zone.entries, r.name, TXT);
    StillThere(before, after, next.record.tag, r.tag);
    TornIsOwned(z, q);
  }

  lemma TornIsOwned(z: Zone, q: Request)
    requires Torn(z, q)
    ensures OwnedBy(z, q.record.name, q.record.tag)
  {
  }

  lemma StillThere(before: seq<Entry>, after: seq<Entry>, added: string, content: string)
    requires AddsOnly(before, after, added) && First(before, content).Some?
    ensures First(after, content).Some?
  {
    if after != before {
      Appended(before, after[|before|]);
      assert after == before + [after[|before|]];
    }
  }

  lemma FreeNameIsTaken(z: Zone, q: Request)
    requires !q.remove && q.record.kind == A && List(z.entries, q.record.name, A) == []
    requires AlwaysAnswers(q.api)
    ensures Serve(z, q).error.None?
  {
    hide List, First;
  }
}
