/** Where the messages of purged beats are: gone for good once the purge is confirmed. */
module LibraryAssets {
  import opened Wrappers
  import opened LibraryIndex
  import opened LibraryQuota
  import opened LibraryPublication
  import opened LibrarySafety
  import opened LibraryRuns
  import TrashAssets

  // A confirmed purge has deleted every asset.

  ghost predicate Gone(vault: Vault, assets: set<MsgId>) {
    forall a <- assets :: a < vault.next && a !in vault.messages
  }

  ghost predicate AssetsGone(w: World) {
    forall id <- w.ledger.purges :: w.ledger.purges[id].state == Confirmed ==> Gone(w.vault, w.ledger.purges[id].assets)
  }

  /** Message ids are never used twice. */
  ghost predicate Grows(before: Vault, after: Vault) {
    before.next <= after.next && forall id <- after.messages :: id in before.messages || before.next <= id
  }

  lemma {:induction false} PublishGrows(w: World, p: Publication, fault: Fault)
    ensures Grows(w.vault, Publish(w, p, fault).0.vault)
  {
    hide IndexRows, CheckBase, CheckContents, CheckQuota, PurgedAssets, Removed, Fresh, CommitTo, ReadPinned,
         DeletedIds;
  }

  lemma {:induction false} StepGrows(w: World, s: Step)
    ensures Grows(w.vault, Apply(w, s).vault)
  {
    hide IndexRows, Publish, ReadPinned, DeletedIds, RequestAll, Reserve, Renew, Cancel, Expiring;
    if s.DoPublish? {
      PublishGrows(w, s.p, s.fault);
    }
  }

  ghost predicate ConfirmedOnlyWhenGone(w: World, after: World) {
    forall id <- after.ledger.purges :: after.ledger.purges[id].state == Confirmed ==>
      (id in w.ledger.purges && w.ledger.purges[id] == after.ledger.purges[id])
      || Gone(after.vault, after.ledger.purges[id].assets)
  }

  lemma ExecuteConfirms(w: World, current: Option<IndexRef>, p: Publication, rows: Rows)
    requires Invariant(w) && CheckContents(w.ledger, Before(w.ledger), p.manifest, rows, p.purgeIds).None?
    ensures ConfirmedOnlyWhenGone(w, Execute(w, current, p, rows, NoFault).0)
  {
    hide IndexRows, CheckContents, Removed, Fresh, CommitReservations, Invariant;
    DeletesAssetsOnly(w, p, rows);
    var gone, after := PurgedAssets(w.ledger, Removed(w.ledger, rows)), Execute(w, current, p, rows, NoFault).0;
    assert forall a <- gone :: AssetMessage(w.vault, a);
    assert Gone(after.vault, gone);
    forall id <- after.ledger.purges | id in Removed(w.ledger, rows) ensures Gone(after.vault,
                                                                                  after.ledger.purges[id].assets) {
      assert forall a <- after.ledger.purges[id].assets :: a in gone;
    }
  }

  lemma {:induction false} PublishConfirms(w: World, p: Publication, fault: Fault)
    requires Invariant(w)
    ensures ConfirmedOnlyWhenGone(w, Publish(w, p, fault).0)
  {
    hide IndexRows, CheckBase, CheckContents, CheckQuota, Execute, ReadPinned, DeletedIds, Invariant, Gone;
    BootstrapKeeps(w, p.now);
    if IndexRows(p.manifest).Ok? {
      var rows := IndexRows(p.manifest).value;
      LockedConfirms(w, p, rows, fault);
      LockedConfirms(Bootstrap(w, p.now).0, p, rows, fault);
    }
  }

  lemma LockedConfirms(w: World, p: Publication, rows: Rows, fault: Fault)
    requires Invariant(w)
    ensures ConfirmedOnlyWhenGone(w, PublishLocked(w, p, rows, fault).0)
  {
    hide CheckBase, CheckContents, CheckQuota, Execute, ReadPinned, Invariant, Gone;
    if CheckContents(w.ledger, Before(w.ledger), p.manifest, rows, p.purgeIds).None? && ReadPinned(w.vault).Ok? {
      ExecuteConfirms(w, ReadPinned(w.vault).value, p, rows);
      InterruptedExecute(w, ReadPinned(w.vault).value, p, rows, fault);
    }
  }

  lemma InterruptedExecute(w: World, current: Option<IndexRef>, p: Publication, rows: Rows, fault: Fault)
    ensures !fault.NoFault? ==> Execute(w, current, p, rows, fault).0.ledger == w.ledger
  {
    hide CommitTo, PurgedAssets, Erase, Send, Removed;
  }

  lemma {:induction false} RequestsConfirmNothing(purges: map<BeatId, Purge>, doc: IndexRef, ids: seq<BeatId>)
    requires RequestAll(purges, doc, ids).Ok?
    ensures forall id <- RequestAll(purges, doc, ids).value ::
              (id in purges && purges[id] == RequestAll(purges, doc, ids).value[id])
              || RequestAll(purges, doc, ids).value[id].state == Pending
  {
    if ids != [] {
      hide ById, Clashes;
      RequestsConfirmNothing(purges, doc, ids[..|ids| - 1]);
    }
  }

  /** At every step a confirmed purge has none of its assets left in the vault. */
  lemma {:induction false} ConfirmedMeansGone(w: World, s: Step)
    requires Invariant(w) && AssetsGone(w)
    ensures AssetsGone(Apply(w, s))
  {
    hide IndexRows, Publish, ReadPinned, DeletedIds, RequestAll, BeatHeld, Occupied, Expire, Invariant;
    StepGrows(w, s);
    match s
    case DoPublish(p, fault) => PublishConfirms(w, p, fault);
    case DoRequestPurge(ids) =>
      if RequestPurge(w, ids).1.None? {
        RequestsConfirmNothing(w.ledger.purges, w.ledger.index.value, ids);
      }
    case _ =>
  }

  lemma {:induction false} ConfirmedPurgesStayGone(w: World, steps: seq<Step>)
    requires Initial(w) && AllowedRun(w, steps)
    ensures AssetsGone(Run(w, steps))
  {
    if steps != [] {
      hide Apply, Allowed, Gone, VaultOk;
      ConfirmedPurgesStayGone(w, steps[..|steps| - 1]);
      InitialHolds(w);
      RunKeeps(w, steps[..|steps| - 1]);
      ConfirmedMeansGone(Run(w, steps[..|steps| - 1]), steps[|steps| - 1]);
    }
  }

  // Why an asset may not name an INDEX.

  /** A file whose record names one message. */
  function FileIn(id: MsgId): TrashAssets.Json {
    TrashAssets.Object(TrashAssets.Id(id), TrashAssets.NoId, TrashAssets.NoLocator, [])
  }

  /** A beat with one file. */
  function OneFile(id: BeatId, message: MsgId): Beat {
    Beat(id, TrashAssets.Beat(Some(FileIn(message)), [], []), "")
  }

  lemma OneFileSays(id: BeatId, message: MsgId)
    requires message > 0
    ensures var beat := OneFile(id, message); WellFormed(beat) && Verifiable(beat) && Messages(beat) == {message}
  {
    var file := FileIn(message);
    assert TrashAssets.MessageIdsOf(file, 0) == Some({}) && TrashAssets.HereIds(file) == {message};
    assert TrashAssets.MessageIds(file) == Some({message} + {}) == Some({message});
    var whole := TrashAssets.Whole(OneFile(id, message).record);
    assert whole == TrashAssets.Array([file]) && TrashAssets.Children(whole) == [file];
    assert TrashAssets.MessageIdsOf(whole, 1) == Some({} + {message});
    assert TrashAssets.MessageIds(whole) == Some({} + ({} + {message})) == Some({message});
  }

  const HOSTAGE := OneFile("b", 2)

  function Hostage(extra: int): Manifest {
    Manifest([], [HOSTAGE], [], extra)
  }

  lemma HostageRows(extra: int)
    ensures IndexRows(Hostage(extra)) == Ok(map["b" := Trash]) && BeatOf(Hostage(extra), "b") == Some(HOSTAGE)
    ensures DeletedIds(Hostage(extra)) == {} && !Clashes(Hostage(extra), "b", {2})
    ensures ById([HOSTAGE]) == map["b" := HOSTAGE]
  {
    HostageRow();
    OneFileSays("b", 2);
    assert IndexRows(Hostage(extra)) == AddRows(map[], [HOSTAGE], Trash) by {
      hide AddRows;
      EmptyList();
    }
    assert AllBeats(Hostage(extra)) == [HOSTAGE];
    assert [HOSTAGE][..0] == [] && ById([]) == map[];
  }

  lemma EmptyList()
    ensures AddRows(map[], [], Active) == Ok(map[])
  {
  }

  lemma HostageRow()
    ensures AddRows(map[], [HOSTAGE], Trash) == Ok(map["b" := Trash])
  {
    var none: Rows := map[];
    assert [] + [HOSTAGE] == [HOSTAGE] && AddRows(none, [], Trash) == Ok(none);
    AddRowsNext(none, [], HOSTAGE, Trash);
  }

  /** The beat in Trash names message 2 before anything has that id. Its purge is requested, then the next publication
      gets id 2, and the purge deletes the committed document. */
  lemma AssetNamingTheNextIndexLosesIt()
    ensures var start := World(Ledger(Some(IndexRef(1, Hostage(0))), map["b" := Trash], map[], map[], None, false),
                               Vault(map[1 := Index(Hostage(0))], 1, 2), {});
            var purge := Publication(Manifest([], [], ["b"], 2), 2, {"b"}, None, 0);
            var end := Run(start, [DoRequestPurge(["b"]), DoPublish(Publication(Hostage(1), 1, {}, None, 0), NoFault),
                                   DoPublish(purge, CutErasing({2}))]);
            end.ledger.index == Some(IndexRef(2, Hostage(1))) && !Holds(end.vault, end.ledger.index.value)
  {
    hide IndexRows, BeatOf, ById, Clashes, DeletedIds, Run, Apply;
    var start := World(Ledger(Some(IndexRef(1, Hostage(0))), map["b" := Trash], map[], map[], None, false),
                       Vault(map[1 := Index(Hostage(0))], 1, 2), {});
    var second := Publication(Hostage(1), 1, {}, None, 0);
    var purge := Publication(Manifest([], [], ["b"], 2), 2, {"b"}, None, 0);
    var requested := RequestedHostage(start);
    var published := PublishedHostage(requested);
    ErasedHostage(published);
    RunThree(start, DoRequestPurge(["b"]), DoPublish(second, NoFault), DoPublish(purge, CutErasing({2})));
    ApplyIs(start, requested, published);
  }

  lemma RunThree(w: World, a: Step, b: Step, c: Step)
    ensures Run(w, [a, b, c]) == Apply(Apply(Apply(w, a), b), c)
  {
    hide Apply;
    assert [a, b, c][..2] == [a, b] && [a, b][..1] == [a] && [a][..0] == [];
    assert Run(w, [a]) == Apply(Run(w, []), a);
    assert Run(w, [a, b]) == Apply(Run(w, [a]), b);
  }

  lemma ApplyIs(start: World, requested: World, published: World)
    requires requested == RequestPurge(start, ["b"]).0
    requires published == Publish(requested, Publication(Hostage(1), 1, {}, None, 0), NoFault).0
    ensures Apply(Apply(start, DoRequestPurge(["b"])), DoPublish(Publication(Hostage(1), 1, {}, None, 0), NoFault))
            == published
    ensures var purge := Publication(Manifest([], [], ["b"], 2), 2, {"b"}, None, 0);
            Apply(published, DoPublish(purge, CutErasing({2}))) == Publish(published, purge, CutErasing({2})).0
  {
    hide Publish, RequestPurge;
  }

  lemma RequestedHostage(start: World) returns (requested: World)
    requires start == World(Ledger(Some(IndexRef(1, Hostage(0))), map["b" := Trash], map[], map[], None, false),
                            Vault(map[1 := Index(Hostage(0))], 1, 2), {})
    ensures requested == RequestPurge(start, ["b"]).0
    ensures requested == start.(ledger := start.ledger.(purges := map["b" := Purge(Pending, {2}, Some(HOSTAGE))]))
  {
    hide IndexRows, BeatOf, ById, Clashes;
    HostageRows(0);
    requested := RequestPurge(start, ["b"]).0;
    var purges: map<BeatId, Purge> := map[];
    var doc := IndexRef(1, Hostage(0));
    assert ["b"][..0] == [] && RequestAll(purges, doc, []) == Ok(purges);
    assert RequestAll(purges, doc, ["b"]) == RequestOne(purges, doc, "b");
  }

  lemma PublishedHostage(requested: World) returns (published: World)
    requires requested == World(Ledger(Some(IndexRef(1, Hostage(0))), map["b" := Trash],
                                       map["b" := Purge(Pending, {2}, Some(HOSTAGE))],
                                       map[], None, false), Vault(map[1 := Index(Hostage(0))], 1, 2), {})
    ensures published == Publish(requested, Publication(Hostage(1), 1, {}, None, 0), NoFault).0
    ensures published.ledger.index == Some(IndexRef(2, Hostage(1))) && published.ledger.beats == map["b" := Trash]
    ensures published.ledger.purges == map["b" := Purge(Pending, {2}, Some(HOSTAGE))]
    ensures published.vault.pin == 2 && 2 in published.vault.messages
            && published.vault.messages[2] == Index(Hostage(1))
  {
    hide IndexRows, BeatOf, Clashes, DeletedIds, CommitReservations;
    HostageRows(0);
    HostageRows(1);
    published := Publish(requested, Publication(Hostage(1), 1, {}, None, 0), NoFault).0;
    assert DeletedIds(Hostage(0)) == {} && DeletedIds(Hostage(1)) == {};
    var rows: Rows := map["b" := Trash];
    assert Removed(requested.ledger, rows) == {} && Fresh(requested.ledger, rows) == {};
    assert PurgedAssets(requested.ledger, {}) == {};
    assert Erase(requested.vault, {}) == requested.vault;
  }

  lemma ErasedHostage(w: World)
    requires w.ledger.index == Some(IndexRef(2, Hostage(1))) && w.ledger.beats == map["b" := Trash]
    requires w.ledger.purges == map["b" := Purge(Pending, {2}, Some(HOSTAGE))]
    requires w.vault.pin == 2 && 2 in w.vault.messages && w.vault.messages[2] == Index(Hostage(1))
    ensures var end := Publish(w, Publication(Manifest([], [], ["b"], 2), 2, {"b"}, None, 0), CutErasing({2})).0;
            end.ledger == w.ledger && 2 !in end.vault.messages
  {
    hide IndexRows, BeatOf, DeletedIds, CommitTo;
    HostageRows(1);
    var m := Manifest([], [], ["b"], 2);
    var none: Rows := map[];
    assert IndexRows(m) == Ok(none) && DeletedIds(m) == {"b"} by {
      EmptyRows(m);
    }
    assert w.ledger.beats.Keys == {"b"} && none.Keys == {};
    assert Removed(w.ledger, none) == {"b"} && Fresh(w.ledger, none) == {};
    assert 2 in PurgedAssets(w.ledger, {"b"});
  }

  lemma EmptyRows(m: Manifest)
    requires m.beats == [] && m.trash == [] && m.deleted == ["b"]
    ensures IndexRows(m) == Ok(map[]) && DeletedIds(m) == {"b"}
  {
  }
}
