/** What Route 53 requests leave alone, what they undo, and who may touch a name that carries an owner's tag. */
module Route53Ownership {
  import opened Wrappers
  import opened Quoting
  import opened DnsApi
  import opened Route53

  // ---------- lists of values ----------

  /** The values of rs that are owner tags. */
  function TagsIn(rs: seq<string>, tags: set<string>): seq<string> {
    if rs == [] then []
    else
      var n := |rs| - 1;
      var found := TagsIn(rs[..n], tags);
      if Untxt(rs[n]) in tags then found + [rs[n]] else found
  }

  lemma Appended(rs: seq<string>, x: string, value: string, tags: set<string>)
    ensures RemoveValue(rs + [x], value) ==
            if Untxt(x) != value then RemoveValue(rs, value) + [x] else RemoveValue(rs, value)
    ensures TagsIn(rs + [x], tags) == if Untxt(x) in tags then TagsIn(rs, tags) + [x] else TagsIn(rs, tags)
    ensures HasValue(rs + [x], value) <==> HasValue(rs, value) || Untxt(x) == value
  {
    var all := rs + [x];
    assert all[..|all| - 1] == rs;
    assert all[|rs|] == x;
    if HasValue(rs, value) {
      var i :| 0 <= i < |rs| && Untxt(rs[i]) == value;
      assert all[i] == rs[i];
    }
  }

  lemma HasAppended(rs: seq<string>, x: string)
    ensures HasValue(rs + [x], Untxt(x))
  {
    Appended(rs, x, Untxt(x), {});
  }

  lemma NothingHeld(value: string)
    ensures !HasValue([], value)
  {
  }

  lemma {:induction false} RemoveEffect(rs: seq<string>, value: string)
    ensures !HasValue(RemoveValue(rs, value), value)
    ensures |RemoveValue(rs, value)| <= |rs|
    ensures HasValue(rs, value) <==> RemoveValue(rs, value) != rs
  {
    hide HasValue, Untxt;
    NothingHeld(value);
    if rs != [] {
      var n := |rs| - 1;
      RemoveEffect(rs[..n], value);
      assert rs == rs[..n] + [rs[n]];
      Appended(rs[..n], rs[n], value, {});
      Appended(RemoveValue(rs[..n], value), rs[n], value, {});
    }
  }

  lemma {:induction false} TagsAfterRemove(rs: seq<string>, value: string, tags: set<string>)
    ensures TagsIn(RemoveValue(rs, value), tags) == RemoveValue(TagsIn(rs, tags), value)
  {
    if rs != [] {
      var n := |rs| - 1;
      TagsAfterRemove(rs[..n], value, tags);
      Appended(RemoveValue(rs[..n], value), rs[n], value, tags);
      Appended(TagsIn(rs[..n], tags), rs[n], value, tags);
    }
  }

  lemma {:induction false} HasTag(rs: seq<string>, tag: string, tags: set<string>)
    requires tag in tags
    ensures HasValue(rs, tag) <==> HasValue(TagsIn(rs, tags), tag)
  {
    if rs != [] {
      var n := |rs| - 1;
      HasTag(rs[..n], tag, tags);
      assert rs == rs[..n] + [rs[n]];
      Appended(rs[..n], rs[n], tag, tags);
      Appended(TagsIn(rs[..n], tags), rs[n], tag, tags);
    }
  }

  lemma RemoveOnly(x: string, value: string)
    ensures RemoveValue([x], value) == if Untxt(x) == value then [] else [x]
    ensures HasValue([x], value) <==> Untxt(x) == value
  {
    Appended([], x, value, {});
    assert [] + [x] == [x];
  }

  /** Removing a value that is no owner tag removes no owner tag. */
  lemma {:induction false} NoTagLost(rs: seq<string>, value: string, tags: set<string>)
    requires value !in tags
    ensures RemoveValue(TagsIn(rs, tags), value) == TagsIn(rs, tags)
  {
    if rs != [] {
      var n := |rs| - 1;
      NoTagLost(rs[..n], value, tags);
      Appended(TagsIn(rs[..n], tags), rs[n], value, tags);
    }
  }

  lemma {:induction false} OnlyTag(rs: seq<string>, tag: string, tags: set<string>)
    requires tag in tags && RemoveValue(rs, tag) == []
    ensures TagsIn(rs, tags) == rs
  {
    if rs != [] {
      var n := |rs| - 1;
      OnlyTag(rs[..n], tag, tags);
      assert rs == rs[..n] + [rs[n]];
    }
  }

  // ---------- frame ----------

  /** Nothing differs but the records of one type and the TXT records at one name. */
  predicate SameElsewhere(z: Zone, w: Zone, name: string, kind: RecordType) {
    w - {KeyOf(name, kind), KeyOf(name, TXT)} == z - {KeyOf(name, kind), KeyOf(name, TXT)}
  }

  lemma Elsewhere(z: Zone, w: Zone, name: string, kind: RecordType, other: string, t: RecordType)
    requires SameElsewhere(z, w, name, kind)
    requires KeyOf(other, t) !in {KeyOf(name, kind), KeyOf(name, TXT)}
    ensures Values(w, other, t) == Values(z, other, t)
  {
    var cut := {KeyOf(name, kind), KeyOf(name, TXT)};
    assert KeyOf(other, t) in w <==> KeyOf(other, t) in w - cut;
    assert KeyOf(other, t) in z <==> KeyOf(other, t) in z - cut;
    if KeyOf(other, t) in z { assert (z - cut)[KeyOf(other, t)] == (w - cut)[KeyOf(other, t)]; }
  }

  lemma EnsureTxtFrame(z: Zone, n: nat, api: Api, r: Record)
    requires r.kind == TXT
    ensures var reply := EnsureTxt(z, n, api, r);
            var owners := Values(z, r.name, TXT);
            && SameElsewhere(z, reply.zone, r.name, r.kind)
            && (|| Values(reply.zone, r.name, TXT) == owners
                || Values(reply.zone, r.name, TXT) == owners + [Txt(r.value)])
            && (reply.error.None? ==> HasValue(Values(reply.zone, r.name, TXT), r.value))
  {
    hide HasValue, Txt, Untxt, RemoveValue, TagsIn;
    UntxtTxt(r.value);
    HasAppended(Values(z, r.name, TXT), Txt(r.value));
  }

  /** The tag is added only at a name without records, after the record itself. */
  lemma EnsureMainFrame(z: Zone, n: nat, api: Api, r: Record)
    requires r.kind != TXT
    ensures var reply := EnsureMain(z, n, api, r);
            var owners, mains := Values(z, r.name, TXT), Values(z, r.name, r.kind);
            var owners', mains' := Values(reply.zone, r.name, TXT), Values(reply.zone, r.name, r.kind);
            && SameElsewhere(z, reply.zone, r.name, r.kind)
            && (mains' == mains || mains' == [r.value])
            && (|| owners' == owners
                || (owners' == owners + [Txt(r.tag)] && mains == [] && mains' == [r.value] && !HasValue(owners, r.tag)))
            && (reply.error.None? ==> HasValue(owners', r.tag) && mains' == [r.value])
  {
    hide HasValue, Txt, Untxt, RemoveValue, TagsIn;
    UntxtTxt(r.tag);
    HasAppended(Values(z, r.name, TXT), Txt(r.tag));
  }

  lemma EnsureFrame(z: Zone, n: nat, api: Api, r: Record)
    ensures var reply := EnsureRecord(z, n, api, r);
            var owners := Values(z, r.name, TXT);
            && SameElsewhere(z, reply.zone, r.name, r.kind)
            && (|| Values(reply.zone, r.name, TXT) == owners
                || Values(reply.zone, r.name, TXT) == owners + [Txt(Marker(r))])
            && (reply.error.None? ==> HasValue(Values(reply.zone, r.name, TXT), Marker(r)))
            && (reply.error.None? && r.kind != TXT ==> Values(reply.zone, r.name, r.kind) == [r.value])
  {
    hide HasValue, Txt, EnsureTxt, EnsureMain, Values;
    if r.kind == TXT {
      EnsureTxtFrame(z, n, api, r);
    } else {
      EnsureMainFrame(z, n, api, r);
    }
  }

  /** Removing the value leaves others to write, or the set is exactly the value; in other spellings Route 53 rejects it. */
  predicate ValueGoes(mains: seq<string>, value: string) {
    RemoveValue(mains, value) != [] || mains == [value]
  }

  lemma DeleteFrame(z: Zone, n: nat, api: Api, r: Record)
    ensures var reply := DeleteRecord(z, n, api, r);
            var owners, mains := Values(z, r.name, TXT), Values(z, r.name, r.kind);
            && SameElsewhere(z, reply.zone, r.name, r.kind)
            && (|| Values(reply.zone, r.name, TXT) == owners
                || Values(reply.zone, r.name, TXT) == RemoveValue(owners, Marker(r)))
            && (|| Values(reply.zone, r.name, r.kind) == mains
                || Values(reply.zone, r.name, r.kind) == RemoveValue(mains, r.value))
            && (reply.error.None? ==> !HasValue(Values(reply.zone, r.name, TXT), Marker(r)))
            && (reply.error.None? ==> HasValue(owners, Marker(r)))
            && (reply.error.None? && r.kind != TXT ==>
                  Values(reply.zone, r.name, r.kind) == if ValueGoes(mains, r.value) then RemoveValue(mains, r.value) else mains)
  {
    hide HasValue, RemoveValue;
    RemoveEffect(Values(z, r.name, TXT), Marker(r));
    if r.kind == TXT {
      if api(n).ok { DeleteTxtFrame(z, n + 1, api, r); }
    } else if api(n).ok && HasValue(Values(z, r.name, TXT), r.tag) && api(n + 1).ok {
      var c := DeleteValue(z, n + 2, api, r);
      DeleteValueFrame(z, n + 2, api, r);
      if c.error.None? { DeleteTagFrame(c.zone, c.calls, api, r); }
    }
  }

  lemma DeleteTxtFrame(z: Zone, n: nat, api: Api, r: Record)
    requires r.kind == TXT
    ensures var reply := DeleteTxt(z, n, api, r);
            var owners := Values(z, r.name, TXT);
            && SameElsewhere(z, reply.zone, r.name, r.kind)
            && (|| Values(reply.zone, r.name, TXT) == owners
                || Values(reply.zone, r.name, TXT) == RemoveValue(owners, r.value))
            && (reply.error.None? ==> Values(reply.zone, r.name, TXT) == RemoveValue(owners, r.value))
            && (reply.error.None? ==> HasValue(owners, r.value))
  {
    hide HasValue, RemoveValue;
  }

  /** The main record loses the value, unless its set holds the value in another spelling and the DELETE is rejected. */
  lemma DeleteValueFrame(z: Zone, n: nat, api: Api, r: Record)
    requires r.kind != TXT
    ensures var reply := DeleteValue(z, n, api, r);
            var mains := Values(z, r.name, r.kind);
            var rest := RemoveValue(mains, r.value);
            && reply.zone - {KeyOf(r.name, r.kind)} == z - {KeyOf(r.name, r.kind)}
            && Values(reply.zone, r.name, TXT) == Values(z, r.name, TXT)
            && reply.calls == n + 1
            && reply.error == (if api(n).ok then None else Some(Unavailable))
            && Values(reply.zone, r.name, r.kind) ==
               if api(n).Acts() && (rest != [] || mains == [r.value]) then rest else mains
  {
    hide HasValue, RemoveValue;
  }

  /** Removing the tag leaves other values to write, or the set is exactly the printed tag. */
  predicate TagGoes(owners: seq<string>, tag: string) {
    RemoveValue(owners, tag) != [] || owners == [Txt(tag)]
  }

  lemma DeleteTagFrame(z: Zone, n: nat, api: Api, r: Record)
    requires r.kind != TXT
    ensures var owners := Values(z, r.name, TXT);
            var reply := DeleteTag(z, n, api, r, owners);
            && reply.zone - {KeyOf(r.name, TXT)} == z - {KeyOf(r.name, TXT)}
            && Values(reply.zone, r.name, r.kind) == Values(z, r.name, r.kind)
            && Values(reply.zone, r.name, TXT) ==
               (if api(n).Acts() && TagGoes(owners, r.tag) then RemoveValue(owners, r.tag) else owners)
            && reply.error == (if !api(n).ok then Some(Unavailable)
                               else if TagGoes(owners, r.tag) then None else Some(InvalidChangeBatch))
  {
    hide HasValue, Txt;
    RemoveOnly(Txt(r.tag), r.tag);
    UntxtTxt(r.tag);
  }

  // ---------- what is stored, and what is answered ----------

  lemma DottedCalls(api: Api, name: string, dotted: string)
    requires Undotted(dotted) == Undotted(name)
    ensures forall z, kind :: Values(z, dotted, kind) == Values(z, name, kind)
    ensures forall z, n, action, kind, values ::
              Change(z, n, api, action, dotted, kind, values) == Change(z, n, api, action, name, kind, values)
  {
  }

  lemma DottedEnsure(z: Zone, n: nat, api: Api, r: Record, name: string)
    requires Undotted(name) == Undotted(r.name)
    ensures EnsureRecord(z, n, api, r.(name := name)) == EnsureRecord(z, n, api, r)
  {
    hide HasValue, RemoveValue, Txt, Change, Values;
    DottedCalls(api, r.name, name);
  }

  lemma DottedDelete(z: Zone, n: nat, api: Api, r: Record, name: string)
    requires Undotted(name) == Undotted(r.name)
    ensures DeleteRecord(z, n, api, r.(name := name)) == DeleteRecord(z, n, api, r)
  {
    hide HasValue, RemoveValue, Txt, Change, Values;
    DottedCalls(api, r.name, name);
  }

  /** A request for a name and one for the same name with its trailing dot are the same request. */
  lemma DotsDoNotMatter(z: Zone, n: nat, api: Api, r: Record)
    requires r.name != "" && r.name[|r.name| - 1] != '.'
    ensures var dotted := r.(name := r.name + ".");
            && EnsureRecord(z, n, api, dotted) == EnsureRecord(z, n, api, r)
            && DeleteRecord(z, n, api, dotted) == DeleteRecord(z, n, api, r)
  {
    hide EnsureRecord, DeleteRecord;
    assert Undotted(r.name + ".") == r.name;
    DottedEnsure(z, n, api, r, r.name + ".");
    DottedDelete(z, n, api, r, r.name + ".");
  }

  /**
   Main result: whatever calls are answered, an ensure either leaves the TXT values of the name alone or adds one at their
   end, a quoted string that reads back as the tag, or as the value of a TXT record.
   */
  lemma EnsureAddsQuoted(z: Zone, n: nat, api: Api, r: Record)
    ensures var before, after := Values(z, r.name, TXT), Values(EnsureRecord(z, n, api, r).zone, r.name, TXT);
            || after == before
            || (&& |after| == |before| + 1 && after[..|before|] == before
                && QuotedString(after[|before|]) && Untxt(after[|before|]) == Marker(r)
                && (NoQuotes(Marker(r)) ==> after[|before|] == "\"" + Marker(r) + "\""))
  {
    hide Values, EnsureRecord, Txt, Untxt;
    EnsureFrame(z, n, api, r);
    TxtIsQuoted(Marker(r));
    UntxtTxt(Marker(r));
  }

  /** Main result: an answered ensure is refused exactly for a type unknown and at a name whose record is not the owner's. */
  lemma EnsureVerdict(z: Zone, n: nat, api: Api, r: Record)
    requires AlwaysAnswers(api)
    ensures EnsureRecord(z, n, api, r).error ==
            if r.kind.Unknown? then Some(Unsupported)
            else if r.kind != TXT && Values(z, r.name, r.kind) != [] && !HasValue(Values(z, r.name, TXT), r.tag)
            then Some(UnmanagedRecord)
            else None
  {
    hide HasValue;
  }

  /** Main result: and a delete at a name without the marker; or if the marker, alone, is not stored as it is printed. */
  lemma DeleteVerdict(z: Zone, n: nat, api: Api, r: Record)
    requires AlwaysAnswers(api)
    ensures var owners := Values(z, r.name, TXT);
            DeleteRecord(z, n, api, r).error ==
            if !HasValue(owners, Marker(r)) then Some(OwnershipMismatch)
            else if r.kind != TXT && !TagGoes(owners, r.tag) then Some(InvalidChangeBatch)
            else None
  {
    hide HasValue, RemoveValue, Txt, DeleteValue, DeleteTag;
    if r.kind == TXT {
      NothingHeld(r.value);
    } else {
      DeleteValueFrame(z, n + 2, api, r);
      var c := DeleteValue(z, n + 2, api, r);
      DeleteTagFrame(c.zone, c.calls, api, r);
    }
  }

  // ---------- doing it twice, and undoing it ----------

  /** Main result: once a record has been ensured, ensuring it again changes nothing, and works whenever it is answered. */
  lemma EnsureIsIdempotent(z: Zone, n: nat, api: Api, r: Record, m: nat, later: Api)
    requires EnsureRecord(z, n, api, r).error.None?
    ensures var done := EnsureRecord(z, n, api, r).zone;
            var again := EnsureRecord(done, m, later, r);
            && again.zone == done
            && (AlwaysAnswers(later) ==> again.error.None?)
  {
    hide HasValue;
    EnsureFrame(z, n, api, r);
    var done := EnsureRecord(z, n, api, r).zone;
    if r.kind != TXT {
      assert done[KeyOf(r.name, r.kind) := [r.value]] == done;
    }
  }

  /** The zone as the API can hold it: no record set is empty. */
  predicate NoEmptySets(z: Zone) {
    forall key :: key in z ==> z[key] != []
  }

  predicate Unclaimed(z: Zone, r: Record) {
    && !HasValue(Values(z, r.name, TXT), Marker(r))
    && (r.kind != TXT ==> Values(z, r.name, r.kind) == [] && Untxt(r.value) == r.value)
  }

  /**
   Main result: deleting a record that was just ensured succeeds and restores the zone exactly when the name had no
   record of that type and no TXT value equal to the tag, and the value is spelled without quotes or escapes.
   */
  lemma EnsureThenDelete(z: Zone, n: nat, r: Record, api: Api)
    requires NoEmptySets(z)
    requires AlwaysAnswers(api)
    requires EnsureRecord(z, n, api, r).error.None?
    ensures var done := EnsureRecord(z, n, api, r);
            var undone := DeleteRecord(done.zone, done.calls, api, r);
            (undone.error.None? && undone.zone == z) <==> Unclaimed(z, r)
  {
    hide HasValue, RemoveValue, Txt;
    var done := EnsureRecord(z, n, api, r);
    var undone := DeleteRecord(done.zone, done.calls, api, r);
    if HasValue(Values(z, r.name, TXT), Marker(r)) {
      DeleteFrame(done.zone, done.calls, api, r);
    } else {
      UndoFresh(z, n, r, api);
    }
  }

  lemma UndoFresh(z: Zone, n: nat, r: Record, api: Api)
    requires NoEmptySets(z)
    requires AlwaysAnswers(api)
    requires EnsureRecord(z, n, api, r).error.None?
    requires !HasValue(Values(z, r.name, TXT), Marker(r))
    ensures var done := EnsureRecord(z, n, api, r);
            var undone := DeleteRecord(done.zone, done.calls, api, r);
            (undone.error.None? && undone.zone == z) <==> Unclaimed(z, r)
  {
    hide HasValue, RemoveValue, Txt, Untxt, DeleteRecord, EnsureRecord, NoEmptySets;
    if r.kind == TXT { UndoFreshTxt(z, n, r, api); } else { UndoFreshMain(z, n, r, api); }
  }

  /** Taking back the appended value gives the values as they were. */
  lemma TakenBack(owners: seq<string>, marker: string)
    requires !HasValue(owners, marker)
    ensures RemoveValue(owners + [Txt(marker)], marker) == owners && HasValue(owners + [Txt(marker)], marker)
  {
    hide HasValue, Txt, Untxt;
    UntxtTxt(marker);
    Appended(owners, Txt(marker), marker, {});
    RemoveEffect(owners, marker);
  }

  lemma UndoFreshTxt(z: Zone, n: nat, r: Record, api: Api)
    requires NoEmptySets(z) && AlwaysAnswers(api) && r.kind == TXT
    requires !HasValue(Values(z, r.name, TXT), r.value)
    ensures var done := EnsureRecord(z, n, api, r);
            var undone := DeleteRecord(done.zone, done.calls, api, r);
            undone.error.None? && undone.zone == z
  {
    hide HasValue, RemoveValue, Txt;
    TakenBack(Values(z, r.name, TXT), r.value);
  }

  lemma UndoFreshMain(z: Zone, n: nat, r: Record, api: Api)
    requires NoEmptySets(z) && AlwaysAnswers(api) && r.kind != TXT
    requires EnsureRecord(z, n, api, r).error.None?
    requires !HasValue(Values(z, r.name, TXT), r.tag)
    ensures var done := EnsureRecord(z, n, api, r);
            var undone := DeleteRecord(done.zone, done.calls, api, r);
            (undone.error.None? && undone.zone == z) <==> Unclaimed(z, r)
  {
    hide HasValue, RemoveValue, Txt, Untxt, EnsureRecord;
    var owners := Values(z, r.name, TXT);
    var done := EnsureRecord(z, n, api, r);
    FreshMain(z, n, r, api);
    TakenBack(owners, r.tag);
    RemoveOnly(r.value, r.value);
    var c := DeleteValue(done.zone, done.calls + 2, api, r);
    DeleteValueFrame(done.zone, done.calls + 2, api, r);
    DeleteTagFrame(c.zone, c.calls, api, r);
    TagOfFresh(owners, r.tag);
    var undone := DeleteTag(c.zone, c.calls, api, r, owners + [Txt(r.tag)]);
    if Untxt(r.value) == r.value {
      assert undone.zone == z;
    } else {
      assert Values(undone.zone, r.name, r.kind) == [r.value];
    }
  }

  lemma TagOfFresh(owners: seq<string>, tag: string)
    requires RemoveValue(owners + [Txt(tag)], tag) == owners
    ensures TagGoes(owners + [Txt(tag)], tag)
  {
    if owners == [] { assert owners + [Txt(tag)] == [Txt(tag)]; }
  }

  /** What a successful ensure of a record without its tag leaves: it was at a free name. */
  lemma FreshMain(z: Zone, n: nat, r: Record, api: Api)
    requires r.kind != TXT && EnsureRecord(z, n, api, r).error.None?
    requires !HasValue(Values(z, r.name, TXT), r.tag)
    ensures var done := EnsureRecord(z, n, api, r);
            && Values(z, r.name, r.kind) == []
            && done.zone == z[KeyOf(r.name, r.kind) := [r.value]][KeyOf(r.name, TXT) := Values(z, r.name, TXT) + [Txt(r.tag)]]
  {
    hide HasValue, Txt;
  }

  lemma SecondDeleteIsRefused(z: Zone, n: nat, api: Api, r: Record, m: nat, later: Api)
    requires DeleteRecord(z, n, api, r).error.None?
    ensures var gone := DeleteRecord(z, n, api, r).zone;
            var again := DeleteRecord(gone, m, later, r);
            again.zone == gone && again.error == Some(if later(m).ok then OwnershipMismatch else Unavailable)
  {
    hide HasValue;
    DeleteFrame(z, n, api, r);
  }

  // ---------- exclusive ownership ----------

  function Serve(z: Zone, q: Request): Reply {
    if q.remove then DeleteRecord(z, 0, q.api, q.record) else EnsureRecord(z, 0, q.api, q.record)
  }

  predicate OneOwner(owners: seq<string>, mains: seq<string>, tags: set<string>) {
    var own := TagsIn(owners, tags);
    own == [] || (own == [Txt(Untxt(own[0]))] && mains != [])
  }

  /** Each name carries at most one owner tag, and only beside an A record. */
  ghost predicate Exclusive(z: Zone, tags: set<string>) {
    forall name :: OneOwner(Values(z, name, TXT), Values(z, name, A), tags)
  }

  /** A delete whose removal of the last A value took effect, and whose removal of the tag did not. */
  predicate Torn(z: Zone, q: Request) {
    && q.remove && q.record.kind == A
    && HasValue(Values(z, q.record.name, TXT), q.record.tag)
    && Values(z, q.record.name, A) == [q.record.value] && Untxt(q.record.value) == q.record.value
    && q.api(0).ok && q.api(1).ok && q.api(2).Acts() && !(q.api(2).ok && q.api(3).Acts())
  }

  /** Where there is one owner, having a tag is being that owner. */
  lemma OwnerIs(owners: seq<string>, mains: seq<string>, tag: string, tags: set<string>)
    requires tag in tags && OneOwner(owners, mains, tags)
    ensures HasValue(owners, tag) <==> TagsIn(owners, tags) == [Txt(tag)]
    ensures HasValue(owners, tag) ==> mains != []
    ensures HasValue(owners, tag) ==> TagsIn(RemoveValue(owners, tag), tags) == []
  {
    HasTag(owners, tag, tags);
    TagsAfterRemove(owners, tag, tags);
    UntxtTxt(tag);
    var own := TagsIn(owners, tags);
    if own != [] { RemoveOnly(own[0], tag); }
  }

  lemma EnsureKeepsOwner(z: Zone, q: Request, tags: set<string>)
    requires Ours(q, tags) && !q.remove
    requires OneOwner(Values(z, q.record.name, TXT), Values(z, q.record.name, A), tags)
    ensures var w := Serve(z, q).zone;
            OneOwner(Values(w, q.record.name, TXT), Values(w, q.record.name, A), tags)
  {
    hide HasValue, Txt, EnsureMain, EnsureTxt;
    var r := q.record;
    var owners := Values(z, r.name, TXT);
    UntxtTxt(Marker(r));
    Appended(owners, Txt(Marker(r)), Marker(r), tags);
    if r.kind == A {
      EnsureMainFrame(z, 0, q.api, r);
      OwnerIs(owners, Values(z, r.name, A), r.tag, tags);
    } else {
      EnsureTxtFrame(z, 0, q.api, r);
      Elsewhere(z, Serve(z, q).zone, r.name, TXT, r.name, A);
    }
  }

  lemma ChallengeDeleteKeepsOwner(z: Zone, q: Request, tags: set<string>)
    requires Ours(q, tags) && q.remove && q.record.kind == TXT
    requires OneOwner(Values(z, q.record.name, TXT), Values(z, q.record.name, A), tags)
    ensures var w := Serve(z, q).zone;
            OneOwner(Values(w, q.record.name, TXT), Values(w, q.record.name, A), tags)
  {
    hide HasValue, RemoveValue, Txt, DeleteTxt;
    var r := q.record;
    var owners := Values(z, r.name, TXT);
    if q.api(0).ok {
      DeleteTxtFrame(z, 1, q.api, r);
      Elsewhere(z, Serve(z, q).zone, r.name, TXT, r.name, A);
      TagsAfterRemove(owners, r.value, tags);
      NoTagLost(owners, r.value, tags);
    }
  }

  lemma DeleteKeepsOwner(z: Zone, q: Request, tags: set<string>)
    requires Ours(q, tags) && q.remove
    requires OneOwner(Values(z, q.record.name, TXT), Values(z, q.record.name, A), tags)
    ensures var w := Serve(z, q).zone;
            OneOwner(Values(w, q.record.name, TXT), Values(w, q.record.name, A), tags) <==> !Torn(z, q)
  {
    hide HasValue, RemoveValue, Txt, DeleteValue, DeleteTag;
    var r := q.record;
    var owners, mains := Values(z, r.name, TXT), Values(z, r.name, A);
    if r.kind == TXT {
      ChallengeDeleteKeepsOwner(z, q, tags);
    } else {
      OwnerIs(owners, mains, r.tag, tags);
      if q.api(0).ok && HasValue(owners, r.tag) && q.api(1).ok {
        var c := DeleteValue(z, 2, q.api, r);
        DeleteValueFrame(z, 2, q.api, r);
        RemoveOnly(r.value, r.value);
        if c.error.None? {
          DeleteTagFrame(c.zone, c.calls, q.api, r);
          if RemoveValue(owners, r.tag) == [] { OnlyTag(owners, r.tag, tags); }
        }
      }
    }
  }

  lemma ServeFrame(z: Zone, q: Request)
    ensures SameElsewhere(z, Serve(z, q).zone, q.record.name, q.record.kind)
  {
    hide EnsureRecord, DeleteRecord, HasValue, RemoveValue, SameElsewhere;
    if q.remove { DeleteFrame(z, 0, q.api, q.record); } else { EnsureFrame(z, 0, q.api, q.record); }
  }

  /** A request, answered or not, keeps ownership exclusive exactly when it is not a torn delete. */
  lemma RequestKeepsExclusive(z: Zone, q: Request, tags: set<string>)
    requires Exclusive(z, tags) && Ours(q, tags)
    ensures Exclusive(Serve(z, q).zone, tags) <==> !Torn(z, q)
  {
    hide Serve, OneOwner, Values, SameElsewhere, HasValue;
    var w, r := Serve(z, q).zone, q.record;
    assert OneOwner(Values(z, r.name, TXT), Values(z, r.name, A), tags);
    if q.remove { DeleteKeepsOwner(z, q, tags); } else { EnsureKeepsOwner(z, q, tags); }
    forall name | !Torn(z, q) ensures OneOwner(Values(w, name, TXT), Values(w, name, A), tags) {
      ServeFrame(z, q);
      if Undotted(name) == Undotted(r.name) {
        SameName(z, name, r.name);
        SameName(w, name, r.name);
      } else {
        Elsewhere(z, w, r.name, r.kind, name, TXT);
        Elsewhere(z, w, r.name, r.kind, name, A);
      }
    }
  }

  lemma SameName(z: Zone, m: string, n: string)
    requires Undotted(m) == Undotted(n)
    ensures forall kind :: Values(z, m, kind) == Values(z, n, kind)
  {
  }

  /** While a name carries one owner's tag, a request about it under another tag fails and leaves the zone as it is. */
  lemma OthersAreRefused(z: Zone, q: Request, owner: string, tags: set<string>)
    requires OneOwner(Values(z, q.record.name, TXT), Values(z, q.record.name, A), tags)
    requires q.record.kind == A && q.record.tag in tags && owner in tags && owner != q.record.tag
    requires HasValue(Values(z, q.record.name, TXT), owner)
    ensures Serve(z, q).zone == z && Serve(z, q).error.Some?
  {
    hide HasValue, Txt, Values;
    OwnerIs(Values(z, q.record.name, TXT), Values(z, q.record.name, A), owner, tags);
    OwnerIs(Values(z, q.record.name, TXT), Values(z, q.record.name, A), q.record.tag, tags);
    UntxtTxt(owner);
    UntxtTxt(q.record.tag);
  }

  /** zones follows qs from its first zone on. */
  predicate Run(zones: seq<Zone>, qs: seq<Request>) {
    && |zones| == |qs| + 1
    && forall i :: 0 <= i < |qs| ==> zones[i + 1] == Serve(zones[i], qs[i]).zone
  }

  ghost predicate NoOwners(z: Zone, tags: set<string>) {
    forall name :: TagsIn(Values(z, name, TXT), tags) == []
  }

  lemma {:induction false} StaysExclusive(zones: seq<Zone>, qs: seq<Request>, tags: set<string>, n: nat)
    requires Run(zones, qs) && n <= |qs|
    requires NoOwners(zones[0], tags)
    requires forall i :: 0 <= i < n ==> Ours(qs[i], tags) && !Torn(zones[i], qs[i])
    ensures Exclusive(zones[n], tags)
  {
    hide Serve, Torn, Ours, Values;
    if n > 0 {
      StaysExclusive(zones, qs, tags, n - 1);
      assert zones[n - 1 + 1] == Serve(zones[n - 1], qs[n - 1]).zone;
      RequestKeepsExclusive(zones[n - 1], qs[n - 1], tags);
    }
  }

  /**
   Main result: over any run of the owners' requests from a zone without owner tags, whatever calls are refused short
   of a torn delete, each name has at most one owner, only beside an A record, and no other owner changes that name.
   */
  lemma ExclusiveOwnership(zones: seq<Zone>, qs: seq<Request>, tags: set<string>)
    requires Run(zones, qs)
    requires NoOwners(zones[0], tags)
    requires forall i :: 0 <= i < |qs| ==> Ours(qs[i], tags) && !Torn(zones[i], qs[i])
    ensures forall i :: 0 <= i <= |qs| ==> Exclusive(zones[i], tags)
    ensures forall i, owner :: 0 <= i < |qs| && Intrudes(zones[i], qs[i], owner, tags) ==> zones[i + 1] == zones[i]
  {
    hide Serve, Torn, Ours, Values, HasValue, OneOwner;
    forall i | 0 <= i <= |qs| ensures Exclusive(zones[i], tags) {
      StaysExclusive(zones, qs, tags, i);
    }
    forall i, owner | 0 <= i < |qs| && Intrudes(zones[i], qs[i], owner, tags) ensures zones[i + 1] == zones[i] {
      assert zones[i + 1] == Serve(zones[i], qs[i]).zone;
      assert Exclusive(zones[i], tags);
      OthersAreRefused(zones[i], qs[i], owner, tags);
    }
  }

  /** A request about an A record at a name that carries another owner's tag. */
  predicate Intrudes(z: Zone, q: Request, owner: string, tags: set<string>) {
    && q.record.kind == A && q.record.tag in tags && owner in tags && owner != q.record.tag
    && HasValue(Values(z, q.record.name, TXT), owner)
  }

  predicate OwnedBy(z: Zone, name: string, owner: string) {
    HasValue(Values(z, name, TXT), owner)
  }

  /** The owner's own request about the name. */
  predicate ByOwner(q: Request, name: string, owner: string) {
    q.record.kind == A && q.record.tag == owner && Undotted(q.record.name) == Undotted(name)
  }

  lemma OwnerKeeps(z: Zone, q: Request, name: string, owner: string, tags: set<string>)
    requires Exclusive(z, tags) && Ours(q, tags) && owner in tags
    requires OwnedBy(z, name, owner) && !ByOwner(q, name, owner)
    ensures OwnedBy(Serve(z, q).zone, name, owner)
    ensures Values(Serve(z, q).zone, name, A) == Values(z, name, A)
  {
    hide Serve, HasValue, Values, SameElsewhere, OneOwner, Txt;
    var w, r := Serve(z, q).zone, q.record;
    ServeFrame(z, q);
    if Undotted(name) != Undotted(r.name) {
      Elsewhere(z, w, r.name, r.kind, name, TXT);
      Elsewhere(z, w, r.name, r.kind, name, A);
    } else {
      SameName(z, name, r.name);
      SameName(w, name, r.name);
      if r.kind == A {
        assert OneOwner(Values(z, r.name, TXT), Values(z, r.name, A), tags);
        OthersAreRefused(z, q, owner, tags);
      } else {
        Elsewhere(z, w, r.name, TXT, name, A);
        ChallengeKeepsTag(z, q, owner, tags);
      }
    }
  }

  lemma ChallengeKeepsTag(z: Zone, q: Request, owner: string, tags: set<string>)
    requires q.record.kind == TXT && q.record.value !in tags && owner in tags
    requires OwnedBy(z, q.record.name, owner)
    ensures OwnedBy(Serve(z, q).zone, q.record.name, owner)
  {
    hide HasValue, Values, SameElsewhere, Txt, DeleteTxt, EnsureTxt;
    var r := q.record;
    var rs := Values(z, r.name, TXT);
    UntxtTxt(r.value);
    Appended(rs, Txt(r.value), owner, tags);
    HasTag(rs, owner, tags);
    HasTag(RemoveValue(rs, r.value), owner, tags);
    TagsAfterRemove(rs, r.value, tags);
    NoTagLost(rs, r.value, tags);
    if q.remove {
      if q.api(0).ok { DeleteTxtFrame(z, 1, q.api, r); }
    } else {
      EnsureTxtFrame(z, 0, q.api, r);
    }
  }

  /** Main result: from when a name is an owner's until its owner asks again, its A record and its owner stay the same. */
  lemma {:induction false} OwnerHoldsTheName(zones: seq<Zone>, qs: seq<Request>, tags: set<string>, name: string,
                                             owner: string, from: nat, to: nat)
    requires Run(zones, qs) && from <= to <= |qs|
    requires NoOwners(zones[0], tags) && owner in tags
    requires forall i :: 0 <= i < |qs| ==> Ours(qs[i], tags) && !Torn(zones[i], qs[i])
    requires OwnedBy(zones[from], name, owner)
    requires forall i :: from <= i < to ==> !ByOwner(qs[i], name, owner)
    ensures OwnedBy(zones[to], name, owner)
    ensures Values(zones[to], name, A) == Values(zones[from], name, A) != []
  {
    hide Serve, Torn, Ours, Values, OwnedBy, ByOwner, HasValue, Txt;
    StaysExclusive(zones, qs, tags, to);
    if from < to {
      OwnerHoldsTheName(zones, qs, tags, name, owner, from, to - 1);
      assert zones[to - 1 + 1] == Serve(zones[to - 1], qs[to - 1]).zone;
      StaysExclusive(zones, qs, tags, to - 1);
      OwnerKeeps(zones[to - 1], qs[to - 1], name, owner, tags);
    } else {
      OwnedMeansRecord(zones[to], name, owner, tags);
    }
  }

  lemma OwnedMeansRecord(z: Zone, name: string, owner: string, tags: set<string>)
    requires Exclusive(z, tags) && owner in tags && OwnedBy(z, name, owner)
    ensures Values(z, name, A) != []
  {
    hide HasValue, Values, Txt;
    assert OneOwner(Values(z, name, TXT), Values(z, name, A), tags);
    OwnerIs(Values(z, name, TXT), Values(z, name, A), owner, tags);
  }

  // ---------- requests cut short ----------

  /** A record without the owner's tag is out of that owner's reach for good, whatever is answered. */
  lemma UntaggedIsOutOfReach(z: Zone, q: Request)
    requires q.record.kind in {A, CNAME}
    requires Values(z, q.record.name, q.record.kind) != [] && !HasValue(Values(z, q.record.name, TXT), q.record.tag)
    ensures Serve(z, q).zone == z && Serve(z, q).error.Some?
  {
    hide HasValue;
  }

  /** Cut at a free name: the write of the record took effect, and that of the tag did not. */
  predicate CutAtTag(z: Zone, r: Record, api: Api) {
    && Values(z, r.name, r.kind) == [] && !HasValue(Values(z, r.name, TXT), r.tag)
    && api(0).ok && api(1).ok && api(2).Acts() && !(api(2).ok && api(3).Acts())
  }

  /** An ensure so cut leaves a record that its own owner can never again update or delete. */
  lemma InterruptedEnsureIsStranded(z: Zone, r: Record, api: Api, later: Request)
    requires r.kind in {A, CNAME} && CutAtTag(z, r, api)
    requires later.record == r
    ensures var left := EnsureRecord(z, 0, api, r);
            && left.error.Some? && Values(left.zone, r.name, r.kind) == [r.value]
            && Serve(left.zone, later).zone == left.zone && Serve(left.zone, later).error.Some?
  {
    hide HasValue, Serve;
    UntaggedIsOutOfReach(EnsureRecord(z, 0, api, r).zone, later);
  }

  /**
   Main result: an ensure that would have succeeded but was cut short can be asked again, and then ends where the
   uncut one would have, if and only if it was not cut between the record and the tag of a free name.
   */
  lemma CutEnsureCanBeAskedAgain(z: Zone, r: Record, api: Api, clean: Api, m: nat, later: Api)
    requires r.kind in {A, CNAME}
    requires AlwaysAnswers(clean) && AlwaysAnswers(later)
    requires EnsureRecord(z, 0, clean, r).error.None? && EnsureRecord(z, 0, api, r).error.Some?
    ensures var again := EnsureRecord(EnsureRecord(z, 0, api, r).zone, m, later, r);
            && (again.error.None? <==> !CutAtTag(z, r, api))
            && (again.error.None? ==> again.zone == EnsureRecord(z, 0, clean, r).zone)
  {
    hide HasValue, Txt, Untxt, RemoveValue, TagsIn;
    UntxtTxt(r.tag);
    HasAppended(Values(z, r.name, TXT), Txt(r.tag));
  }

  /** The last removal of the delete, that of its TXT value, took effect. */
  predicate MarkerGone(r: Record, api: Api) {
    if r.kind == TXT then api(0).ok && api(1).Acts() else api(0).ok && api(1).ok && api(2).ok && api(3).Acts()
  }

  /**
   Main result: a delete that would have succeeded but was cut short, asked again and answered, always ends where the
   uncut one would have; it says so if and only if the cut had not got as far as removing the TXT value, and else is
   refused as an ownership mismatch.
   */
  lemma CutDeleteCanBeAskedAgain(z: Zone, r: Record, api: Api, clean: Api, m: nat, later: Api)
    requires AlwaysAnswers(clean) && AlwaysAnswers(later)
    requires DeleteRecord(z, 0, clean, r).error.None? && DeleteRecord(z, 0, api, r).error.Some?
    ensures var again := DeleteRecord(DeleteRecord(z, 0, api, r).zone, m, later, r);
            && again.zone == DeleteRecord(z, 0, clean, r).zone
            && again.error == if MarkerGone(r, api) then Some(OwnershipMismatch) else None
  {
    hide EnsureRecord, DeleteRecord, HasValue;
    if r.kind == TXT { CutDeleteOfTxt(z, r, api, clean, m, later); } else { CutDeleteOfMain(z, r, api, clean, m, later); }
  }

  lemma CutDeleteOfTxt(z: Zone, r: Record, api: Api, clean: Api, m: nat, later: Api)
    requires r.kind == TXT && AlwaysAnswers(clean) && AlwaysAnswers(later)
    requires DeleteRecord(z, 0, clean, r).error.None? && DeleteRecord(z, 0, api, r).error.Some?
    ensures var again := DeleteRecord(DeleteRecord(z, 0, api, r).zone, m, later, r);
            && again.zone == DeleteRecord(z, 0, clean, r).zone
            && again.error == if MarkerGone(r, api) then Some(OwnershipMismatch) else None
  {
    hide HasValue, RemoveValue, Txt, Untxt;
    RemoveEffect(Values(z, r.name, TXT), r.value);
    NothingHeld(r.value);
  }

  /** Removing the value a second time changes nothing. */
  lemma ValueGoesOnce(z: Zone, n: nat, api: Api, r: Record, k: nat, other: Api)
    requires r.kind != TXT && api(n).Acts() && other(k).ok
    ensures var w := DeleteValue(z, n, api, r).zone;
            && DeleteValue(w, k, other, r) == Reply(w, k + 1, None)
            && DeleteValue(z, k, other, r) == Reply(w, k + 1, None)
            && Values(w, r.name, TXT) == Values(z, r.name, TXT)
  {
    hide RemoveValue;
    var mains := Values(z, r.name, r.kind);
    Settled(mains, r.value);
    RemoveNothing(r.value);
    var w := DeleteValue(z, n, api, r).zone;
    if RemoveValue(mains, r.value) != [] {
      assert w[KeyOf(r.name, r.kind) := RemoveValue(mains, r.value)] == w;
    }
  }

  /** Without its tag a name answers a delete with a mismatch; the tag's removal depends on nothing but taking effect. */
  lemma TagGoesOnce(z: Zone, n: nat, api: Api, r: Record, k: nat, other: Api)
    requires r.kind != TXT && api(n).Acts() && other(k).ok && TagGoes(Values(z, r.name, TXT), r.tag)
    ensures var owners := Values(z, r.name, TXT);
            var w := DeleteTag(z, n, api, r, owners).zone;
            && DeleteTag(z, k, other, r, owners) == Reply(w, k + 1, None)
            && !HasValue(Values(w, r.name, TXT), r.tag)
  {
    hide HasValue, Txt;
    DeleteTagFrame(z, n, api, r);
    DeleteTagFrame(z, k, other, r);
    RemoveEffect(Values(z, r.name, TXT), r.tag);
  }

  lemma CutDeleteOfMain(z: Zone, r: Record, api: Api, clean: Api, m: nat, later: Api)
    requires r.kind != TXT && AlwaysAnswers(clean) && AlwaysAnswers(later)
    requires DeleteRecord(z, 0, clean, r).error.None? && DeleteRecord(z, 0, api, r).error.Some?
    ensures var again := DeleteRecord(DeleteRecord(z, 0, api, r).zone, m, later, r);
            && again.zone == DeleteRecord(z, 0, clean, r).zone
            && again.error == if MarkerGone(r, api) then Some(OwnershipMismatch) else None
  {
    hide HasValue, RemoveValue, Txt, Untxt, DeleteValue, DeleteTag;
    var owners := Values(z, r.name, TXT);
    ValueGoesOnce(z, 2, clean, r, m + 2, later);
    var w := DeleteValue(z, 2, clean, r).zone;
    Outcomes(z, w, 2, 3, clean, r);
    DeleteTagFrame(w, 3, clean, r);
    TagGoesOnce(w, 3, clean, r, m + 3, later);
    if api(2).Acts() {
      ValueGoesOnce(z, 2, api, r, 2, clean);
      ValueGoesOnce(z, 2, api, r, m + 2, later);
      Outcomes(z, w, 2, 3, api, r);
      if api(3).Acts() { TagGoesOnce(w, 3, api, r, 3, clean); }
    } else {
      NoEffect(z, 2, api, r);
    }
  }

  lemma NoEffect(z: Zone, n: nat, api: Api, r: Record)
    requires !api(n).Acts()
    ensures DeleteValue(z, n, api, r) == Reply(z, n + 1, Some(Unavailable))
  {
  }

  lemma Outcomes(z: Zone, w: Zone, n: nat, k: nat, api: Api, r: Record)
    requires r.kind != TXT
    ensures DeleteValue(z, n, api, r).calls == n + 1
    ensures DeleteValue(z, n, api, r).error == if api(n).ok then None else Some(Unavailable)
    ensures !api(k).Acts() ==> DeleteTag(w, k, api, r, Values(w, r.name, TXT)).zone == w
    ensures !api(k).ok ==> DeleteTag(w, k, api, r, Values(w, r.name, TXT)).error.Some?
  {
    hide RemoveValue, Txt;
  }

  lemma Settled(rs: seq<string>, value: string)
    ensures RemoveValue(RemoveValue(rs, value), value) == RemoveValue(rs, value)
  {
    RemoveEffect(rs, value);
    RemoveEffect(RemoveValue(rs, value), value);
  }

  /** After a torn delete the name is free to the next owner, whose tag then stands beside the old one. */
  lemma TornDeleteSharesTheName(z: Zone, q: Request, next: Request)
    requires Torn(z, q)
    requires !next.remove && next.record.kind == A && Undotted(next.record.name) == Undotted(q.record.name)
    requires AlwaysAnswers(next.api)
    ensures var w := Serve(Serve(z, q).zone, next);
            && w.error.None?
            && OwnedBy(w.zone, q.record.name, q.record.tag)
            && OwnedBy(w.zone, q.record.name, next.record.tag)
  {
    hide HasValue, RemoveValue, Txt, EnsureRecord;
    var torn, r := Serve(z, q).zone, q.record;
    RemoveOnly(r.value, r.value);
    DeleteValueFrame(z, 2, q.api, r);
    SameName(torn, next.record.name, r.name);
    assert Values(torn, r.name, TXT) == Values(z, r.name, TXT);
    assert Values(torn, r.name, A) == [];
    assert OwnedBy(torn, next.record.name, r.tag);
    SameName(Serve(torn, next).zone, next.record.name, r.name);
    FreeNameIsTaken(torn, next);
  }

  lemma FreeNameIsTaken(z: Zone, q: Request)
    requires !q.remove && q.record.kind == A && Values(z, q.record.name, A) == []
    requires AlwaysAnswers(q.api)
    ensures var w := Serve(z, q);
            && w.error.None? && OwnedBy(w.zone, q.record.name, q.record.tag)
            && forall tag :: OwnedBy(z, q.record.name, tag) ==> OwnedBy(w.zone, q.record.name, tag)
  {
    hide HasValue, Txt;
    EnsureMainFrame(z, 0, q.api, q.record);
    var owners := Values(z, q.record.name, TXT);
    forall tag ensures HasValue(owners, tag) ==> HasValue(owners + [Txt(q.record.tag)], tag) {
      Appended(owners, Txt(q.record.tag), tag, {});
    }
  }

  /** A torn delete that is simply asked again, and answered, ends where an uninterrupted one would have. */
  lemma TornDeleteResumes(z: Zone, q: Request, again: Request)
    requires Torn(z, q) && again.remove && again.record == q.record
    requires AlwaysAnswers(again.api)
    ensures var w := Serve(Serve(z, q).zone, again);
            w.zone == Serve(z, again).zone && w.error == Serve(z, again).error
  {
    hide HasValue, RemoveValue, Txt;
    RemoveOnly(q.record.value, q.record.value);
    RemoveNothing(q.record.value);
  }

  lemma RemoveNothing(value: string)
    ensures RemoveValue([], value) == []
  {
  }
}
