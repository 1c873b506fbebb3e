/** Which Telegram messages a beat's record refers to, anywhere inside it. */
module TrashAssets {
  import opened Wrappers

  /** A field meant to hold a message id: missing (or empty), not a positive integer, or an id. */
  datatype IdField = NoId | BadId | Id(value: nat)

  /** A file locator: missing, not of the form direct:<id>, or that form with its id. */
  datatype Locator = NoLocator | BadLocator | Direct(value: nat)

  /** A record: its two id fields and its locator are told apart from all other fields. */
  datatype Json =
    | Scalar
    | Array(items: seq<Json>)
    | Object(explicit: IdField, metadata: IdField, locator: Locator, fields: seq<Json>)

  function Children(j: Json): seq<Json> {
    match j
    case Scalar => []
    case Array(items) => items
    case Object(_, _, _, fields) => fields
  }

  predicate BadHere(j: Json) {
    j.Object?
    && (j.explicit.BadId? || j.metadata.BadId? || j.locator.BadLocator? || (j.explicit.Id? && j.explicit.value == 0)
        || (j.metadata.Id? && j.metadata.value == 0) || (j.locator.Direct? && j.locator.value == 0)
        || (j.locator.Direct? && j.explicit.Id? && j.locator.value != j.explicit.value))
  }

  predicate NamedHere(j: Json, id: nat) {
    j.Object? && (j.explicit == Id(id) || j.metadata == Id(id) || j.locator == Direct(id))
  }

  /** A position inside a record, as a path of child numbers. */
  type Path = seq<nat>

  predicate ValidPath(j: Json, path: Path) {
    path != [] ==> path[0] < |Children(j)| && ValidPath(Children(j)[path[0]], path[1..])
  }

  function At(j: Json, path: Path): Json
    requires ValidPath(j, path)
  {
    if path == [] then j else At(Children(j)[path[0]], path[1..])
  }

  ghost predicate Usable(field: IdField) {
    field.NoId? || (field.Id? && field.value > 0)
  }

  /** One of the three fields is present and no positive id, or the locator names another message than the explicit id
      beside it. */
  ghost predicate Faulty(j: Json) {
    && j.Object?
    && !(Usable(j.explicit) && Usable(j.metadata)
         && (j.locator.NoLocator? || (j.locator.Direct? && j.locator.value > 0
                                      && j.explicit in {NoId, Id(j.locator.value)})))
  }

  /** The id stands somewhere in the record, and the record has a malformed place: what the collection is about. */
  ghost predicate Names(j: Json, id: nat) {
    exists path: Path :: ValidPath(j, path) && NamedHere(At(j, path), id)
  }

  ghost predicate Malformed(j: Json) {
    exists path: Path :: ValidPath(j, path) && Faulty(At(j, path))
  }

  // The recursive collection; None is the error it throws.

  function HereIds(j: Json): set<nat> {
    if !j.Object? then {}
    else (if j.explicit.Id? then {j.explicit.value} else {}) + (if j.metadata.Id? then {j.metadata.value} else {})
         + (if j.locator.Direct? then {j.locator.value} else {})
  }

  function MessageIds(j: Json): Option<set<nat>>
    decreases j, 1
  {
    if BadHere(j) then None
    else
      var inner := MessageIdsOf(j, |Children(j)|);
      if inner.None? then None else Some(HereIds(j) + inner.value)
  }

  function MessageIdsOf(j: Json, n: nat): Option<set<nat>>
    requires n <= |Children(j)|
    decreases j, 0, n
  {
    if n == 0 then Some({})
    else
      assert Children(j)[n - 1] < j;
      var before, last := MessageIdsOf(j, n - 1), MessageIds(Children(j)[n - 1]);
      if before.None? || last.None? then None else Some(before.value + last.value)
  }

  lemma ChildNames(j: Json, k: nat, id: nat)
    requires k < |Children(j)|
    ensures Names(Children(j)[k], id) ==> Names(j, id)
    ensures Malformed(Children(j)[k]) ==> Malformed(j)
  {
    if Names(Children(j)[k], id) {
      var path: Path :| ValidPath(Children(j)[k], path) && NamedHere(At(Children(j)[k], path), id);
      assert ([k] + path)[1..] == path && ValidPath(j, [k] + path) && At(j, [k] + path) == At(Children(j)[k], path);
    }
    if Malformed(Children(j)[k]) {
      var path: Path :| ValidPath(Children(j)[k], path) && Faulty(At(Children(j)[k], path));
      assert ([k] + path)[1..] == path && ValidPath(j, [k] + path) && At(j, [k] + path) == At(Children(j)[k], path);
    }
  }

  lemma HereOrInside(j: Json, id: nat)
    ensures Names(j, id) <==> NamedHere(j, id) || exists k | 0 <= k < |Children(j)| :: Names(Children(j)[k], id)
    ensures Malformed(j) <==> Faulty(j) || exists k | 0 <= k < |Children(j)| :: Malformed(Children(j)[k])
  {
    assert ValidPath(j, []) && At(j, []) == j;
    forall k | 0 <= k < |Children(j)|
      ensures Names(Children(j)[k], id) ==> Names(j, id)
      ensures Malformed(Children(j)[k]) ==> Malformed(j)
    {
      ChildNames(j, k, id);
    }
    if Names(j, id) && !NamedHere(j, id) {
      var path: Path :| ValidPath(j, path) && NamedHere(At(j, path), id);
      var k, inner := path[0], path[1..];
      assert ValidPath(Children(j)[k], inner) && NamedHere(At(Children(j)[k], inner), id);
      assert Names(Children(j)[k], id);
    }
    if Malformed(j) && !Faulty(j) {
      var path: Path :| ValidPath(j, path) && Faulty(At(j, path));
      var k, inner := path[0], path[1..];
      assert ValidPath(Children(j)[k], inner) && Faulty(At(Children(j)[k], inner));
      assert Malformed(Children(j)[k]);
    }
  }

  lemma FaultsAreBad(j: Json)
    ensures BadHere(j) <==> Faulty(j)
  {
  }

  /** The collection fails exactly when the record is malformed somewhere, and otherwise finds exactly the ids that
      stand somewhere in it. */
  lemma {:induction false} CollectsExactly(j: Json, id: nat)
    ensures MessageIds(j).None? <==> Malformed(j)
    ensures MessageIds(j).Some? ==> (id in MessageIds(j).value <==> Names(j, id))
    decreases j, 1
  {
    hide Names, Malformed;
    HereOrInside(j, id);
    FaultsAreBad(j);
    CollectsUpTo(j, |Children(j)|, id);
  }

  lemma {:induction false} CollectsUpTo(j: Json, n: nat, id: nat)
    requires n <= |Children(j)|
    ensures MessageIdsOf(j, n).None? <==> exists k | 0 <= k < n :: Malformed(Children(j)[k])
    ensures MessageIdsOf(j, n).Some? ==> (id in MessageIdsOf(j, n).value <==> exists k | 0 <= k < n ::
                                            Names(Children(j)[k], id))
    decreases j, 0, n
  {
    hide Names, Malformed, BadHere, HereIds;
    if n > 0 {
      assert Children(j)[n - 1] < j;
      CollectsUpTo(j, n - 1, id);
      CollectsExactly(Children(j)[n - 1], id);
    }
  }

  // A beat's assets.

  /** The parts of a beat's record that must name a message, and everything else in it. */
  datatype Beat = Beat(master: Option<Json>, sections: seq<Json>, rest: seq<Json>)

  function Whole(beat: Beat): Json {
    Array((if beat.master.Some? then [beat.master.value] else []) + beat.sections + beat.rest)
  }

  predicate Verifiable(j: Json) {
    MessageIds(j).Some? && MessageIds(j).value != {}
  }

  function BeatAssets(beat: Beat): Option<set<nat>> {
    if beat.master.None? || !Verifiable(beat.master.value) || exists s <- beat.sections :: !Verifiable(s) then None
    else MessageIds(Whole(beat))
  }

  lemma {:induction false} CollectsPart(j: Json, n: nat, k: nat)
    requires k < n <= |Children(j)| && MessageIdsOf(j, n).Some?
    ensures MessageIds(Children(j)[k]).Some? && MessageIds(Children(j)[k]).value <= MessageIdsOf(j, n).value
    decreases n
  {
    if k < n - 1 {
      CollectsPart(j, n - 1, k);
    }
  }

  /** The assets of a verifiable beat are never empty, contain every file's messages, and are exactly the ids in its
      record. */
  lemma AssetsCoverTheBeat(beat: Beat, id: nat)
    requires BeatAssets(beat).Some?
    ensures var assets := BeatAssets(beat).value;
            && assets != {} && (id in assets <==> Names(Whole(beat), id))
            && (forall s <- [beat.master.value] + beat.sections :: MessageIds(s).Some? && MessageIds(s).value <= assets
                                                                   && MessageIds(s).value != {})
  {
    hide Names, MessageIds, BadHere, HereIds;
    var whole := Whole(beat);
    CollectsExactly(whole, id);
    WholeIds(whole);
    forall s <- [beat.master.value] + beat.sections
      ensures MessageIds(s).Some? && MessageIds(s).value <= BeatAssets(beat).value && MessageIds(s).value != {}
    {
      var k :| 0 <= k < |[beat.master.value] + beat.sections| && ([beat.master.value] + beat.sections)[k] == s;
      assert whole.items[k] == s;
      CollectsPart(whole, |whole.items|, k);
    }
    assert beat.master.value in [beat.master.value] + beat.sections;
  }

  lemma CollectsSomething(j: Json)
    ensures Verifiable(j) <==> !Malformed(j) && exists id :: Names(j, id)
  {
    hide Names, Malformed, MessageIds;
    CollectsExactly(j, 0);
    if Verifiable(j) {
      var id :| id in MessageIds(j).value;
      CollectsExactly(j, id);
    }
    if !Malformed(j) && exists id :: Names(j, id) {
      var id :| Names(j, id);
      CollectsExactly(j, id);
    }
  }

  /** A beat is verifiable exactly when it has a master, nothing in its record is malformed, and the master and every
      other file name a message. */
  lemma VerifiableExactly(beat: Beat)
    ensures BeatAssets(beat).Some? <==>
            && beat.master.Some? && !Malformed(Whole(beat))
            && forall s <- [beat.master.value] + beat.sections :: exists id :: Names(s, id)
  {
    hide Names, Malformed, MessageIds, Verifiable;
    CollectsExactly(Whole(beat), 0);
    if beat.master.Some? {
      forall s <- [beat.master.value] + beat.sections
        ensures Verifiable(s) <==> !Malformed(s) && exists id :: Names(s, id)
        ensures Malformed(s) ==> Malformed(Whole(beat))
      {
        CollectsSomething(s);
        PartOfWhole(beat, s);
      }
      assert beat.master.value in [beat.master.value] + beat.sections;
      assert forall s <- beat.sections :: s in [beat.master.value] + beat.sections;
    }
  }

  lemma PartOfWhole(beat: Beat, s: Json)
    requires beat.master.Some? && s in [beat.master.value] + beat.sections
    ensures Malformed(s) ==> Malformed(Whole(beat))
  {
    hide Names, Malformed;
    var k :| 0 <= k < |[beat.master.value] + beat.sections| && ([beat.master.value] + beat.sections)[k] == s;
    assert Children(Whole(beat))[k] == s;
    ChildNames(Whole(beat), k, 0);
  }

  lemma WholeIds(whole: Json)
    requires whole.Array? && MessageIds(whole).Some?
    ensures MessageIdsOf(whole, |whole.items|) == MessageIds(whole)
  {
    var inner := MessageIdsOf(whole, |Children(whole)|);
    assert HereIds(whole) == {} && {} + inner.value == inner.value;
  }

  /** The Set one collection fills while it walks the record. */
  class Collector {
    var found: set<nat>

    constructor ()
      ensures found == {}
    {
      found := {};
    }

    /** False stands for the exception; what was found up to then is discarded with it. */
    method Collect(j: Json) returns (ok: bool)
      modifies this
      ensures ok == MessageIds(j).Some?
      ensures ok ==> found == old(found) + MessageIds(j).value
      decreases j
    {
      hide Names, Malformed, BadHere;
      if BadHere(j) {
        return false;
      }
      if j.Object? {
        if j.explicit.Id? {
          found := found + {j.explicit.value};
        }
        if j.metadata.Id? {
          found := found + {j.metadata.value};
        }
        if j.locator.Direct? {
          found := found + {j.locator.value};
        }
      }
      ghost var here := found;
      assert here == old(found) + HereIds(j);
      var n := 0;
      while n < |Children(j)|
        invariant 0 <= n <= |Children(j)| && MessageIdsOf(j, n).Some? && found == here + MessageIdsOf(j, n).value
      {
        ok := Collect(Children(j)[n]);
        n := n + 1;
        if !ok {
          FailureStays(j, n, |Children(j)|);
          return false;
        }
      }
      return true;
    }
  }

  lemma {:induction false} FailureStays(j: Json, n: nat, m: nat)
    requires n <= m <= |Children(j)| && MessageIdsOf(j, n).None?
    ensures MessageIdsOf(j, m).None?
    decreases m
  {
    if n < m {
      FailureStays(j, n, m - 1);
    }
  }
}
