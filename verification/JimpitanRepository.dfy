/** The jimpitan repository and the guards of its service on the shared tables. */
module JimpitanRepository {
  import opened Prelude
  import opened Sums
  import opened Tables
  import opened FinanceOps
  import opened CollectionOps
  import opened CollectionTheorems
  import opened SystemLaws
  import opened CallLaws
  import opened Database
  import F = FinanceRepository

  class JimpitanRepository {
    const db: Database
    const finance: F.FinanceRepository

    /** Both repositories work on one database. */
    ghost predicate Valid() {
      finance.db == db
    }

    constructor (db: Database, finance: F.FinanceRepository)
      requires finance.db == db
      ensures this.db == db && this.finance == finance && Valid()
    {
      this.db, this.finance := db, finance;
    }

    // ----- Guards ------------------------------------------------------------------------------

    /** Is there another active session on the route and date? */
    method HasActiveDuplicate(rt: Id, date: Id, area: Option<Id>, but: Option<Id>) returns (found: bool)
      ensures found <==> Duplicates(db.collections, rt, date, area, but) != {}
    {
      if c :| && c in db.collections && db.collections[c].rt == rt && db.collections[c].date == date
              && db.collections[c].status in {CollectionStatus.Draft, InProgress, Submitted}
              && db.collections[c].area == area && Some(c) != but
      {
        assert c in Duplicates(db.collections, rt, date, area, but);
        found := true;
      } else {
        assert Duplicates(db.collections, rt, date, area, but) == {};
        found := false;
      }
    }

    /** The batch names no house twice: as many different houses as entries. */
    method NoDuplicateHouses(batch: seq<ItemInput>) returns (ok: bool)
      ensures ok <==> DistinctHouses(batch)
    {
      var houses: set<Id> := {};
      for i := 0 to |batch|
        invariant houses == HousesOf(batch[..i])
      {
        assert batch[..i + 1][..i] == batch[..i];
        houses := houses + {batch[i].house};
      }
      assert batch[..|batch|] == batch;
      DistinctByCount(batch);
      ok := |houses| == |batch|;
    }

    method ValidItemAmounts(batch: seq<ItemInput>) returns (ok: bool)
      ensures ok <==> forall i :: 0 <= i < |batch| ==> ValidItemAmount(batch[i])
    {
      for i := 0 to |batch|
        invariant forall j :: 0 <= j < i ==> ValidItemAmount(batch[j])
      {
        var item := batch[i];
        if item.amount < 0 || (item.status == Paid && item.amount <= 0) || (item.status != Paid && item.amount > 0) {
          assert !ValidItemAmount(item);
          return false;
        }
      }
      ok := true;
    }

    predicate HouseOnRoute(rt: Id, area: Option<Id>, house: Id)
      reads this, db
    {
      && house in db.master.houses
      && db.master.houses[house].rt == rt && db.master.houses[house].assignable
      && (area.Some? ==> db.master.houses[house].area == area.value)
    }

    predicate ResidentInHouse(rt: Id, item: ItemInput)
      reads this, db
    {
      item.resident.Some? ==>
        && item.resident.value in db.master.residents
        && db.master.residents[item.resident.value] == Resident(rt, item.house, true)
    }

    /** As many houses of the batch are found on the route as the batch names, and residents fit theirs. */
    method ItemsAssignable(rt: Id, area: Option<Id>, batch: seq<ItemInput>) returns (ok: bool)
      ensures ok <==> forall i :: 0 <= i < |batch| ==> ItemAssignable(db.Snapshot(), rt, area, batch[i])
    {
      var wanted := set i | 0 <= i < |batch| :: batch[i].house;
      var found := set h | h in wanted && HouseOnRoute(rt, area, h);
      SubsetSize(found, wanted);
      if |found| != |wanted| {
        ghost var missing :| missing in wanted && missing !in found;
        ghost var i :| 0 <= i < |batch| && batch[i].house == missing;
        assert !ItemAssignable(db.Snapshot(), rt, area, batch[i]);
        return false;
      }
      forall i | 0 <= i < |batch| ensures HouseOnRoute(rt, area, batch[i].house) {
        assert batch[i].house in wanted;
      }
      ok := forall i :: 0 <= i < |batch| ==> ResidentInHouse(rt, batch[i]);
    }

    /** Guards shared by the officer's own edits. */
    method OwnEdit(actor: Actor, c: Id) returns (refusal: Option<Refusal>)
      ensures refusal == OwnEditRefusal(db.Snapshot(), actor, c)
    {
      if !(c in db.collections && db.collections[c].rt == actor.rt) {
        return Some(NotFound);
      }
      if !(actor.mayValidate || actor.membership == db.collections[c].officer) {
        return Some(NotOwner);
      }
      if db.collections[c].status !in {CollectionStatus.Draft, InProgress, CollectionStatus.Rejected} {
        return Some(WrongStatus);
      }
      refusal := None;
    }

    // ----- Sessions ----------------------------------------------------------------------------

    method CreateCollection(actor: Actor, newId: Id, cmd: CreateCommand) returns (reply: Reply)
      requires db.Valid()
      modifies db`collections
      ensures db.Valid() && Evolves(old(db.Snapshot()), db.Snapshot())
      ensures Outcome(db.Snapshot(), reply) == CreateStep(old(db.Snapshot()), actor, newId, cmd)
    {
      CreateKept(db.Snapshot(), actor, newId, cmd);
      var mode := cmd.mode.GetOr(PerHouse);
      var input := ModeInputRefusal(mode, cmd.total);
      if input.Some? {
        return Refused(input.value);
      }
      if !OfficerAssignable(db.Snapshot(), actor.rt, cmd.officer) {
        return Refused(InactiveMember);
      }
      if !AreaAssignable(db.Snapshot(), actor.rt, cmd.area) {
        return Refused(InactiveArea);
      }
      var duplicate := HasActiveDuplicate(actor.rt, cmd.date, cmd.area, None);
      if duplicate {
        return Refused(DuplicateRoute);
      }
      if newId in db.collections {
        return Refused(UniqueViolation);
      }
      db.collections := db.collections[newId :=
        Collection(actor.rt, cmd.officer, cmd.date, cmd.area, mode, CollectionStatus.Draft,
                   if cmd.total.Some? then cmd.total.value else 0, None, false, map[])];
      reply := Done(newId);
    }

    /** The service's guards, then those the repository repeats in its transaction. */
    method UpdateGuard(rt: Id, c: Id, cmd: UpdateCommand) returns (refusal: Option<Refusal>)
      requires c in db.collections && db.collections[c].rt == rt
      ensures refusal == UpdateRefusal(db.Snapshot(), rt, c, cmd)
    {
      var row := db.collections[c];
      if row.status !in {CollectionStatus.Draft, InProgress, CollectionStatus.Rejected} {
        return Some(WrongStatus);
      }
      var input := ModeInputRefusal(cmd.mode.GetOr(row.mode), cmd.total);
      if input.Some? {
        return input;
      }
      if cmd.mode.Some? && cmd.mode.value != row.mode && |row.items| > 0 {
        return Some(ItemsExist);
      }
      if cmd.officer.Some? && !OfficerAssignable(db.Snapshot(), rt, cmd.officer.value) {
        return Some(InactiveMember);
      }
      if cmd.area.Some? && !AreaAssignable(db.Snapshot(), rt, cmd.area.value) {
        return Some(InactiveArea);
      }
      var date, area := cmd.date.GetOr(row.date), cmd.area.GetOr(row.area);
      if cmd.date.Some? || cmd.area.Some? {
        var duplicate := HasActiveDuplicate(rt, date, ServiceArea(row, cmd), Some(c));
        if duplicate {
          return Some(DuplicateRoute);
        }
      }
      if !AreaAssignable(db.Snapshot(), rt, area) {
        return Some(InactiveArea);
      }
      if cmd.officer.Some? || cmd.date.Some? || cmd.area.Some? {
        var duplicate := HasActiveDuplicate(rt, date, area, Some(c));
        if duplicate {
          return Some(DuplicateRoute);
        }
      }
      refusal := None;
    }

    method UpdateCollection(actor: Actor, c: Id, cmd: UpdateCommand) returns (reply: Reply)
      requires db.Valid()
      modifies db`collections
      ensures db.Valid() && Evolves(old(db.Snapshot()), db.Snapshot())
      ensures Outcome(db.Snapshot(), reply) == UpdateStep(old(db.Snapshot()), actor, c, cmd)
    {
      UpdateKept(db.Snapshot(), actor, c, cmd);
      if !(c in db.collections && db.collections[c].rt == actor.rt) {
        return Refused(NotFound);
      }
      var refusal := UpdateGuard(actor.rt, c, cmd);
      if refusal.Some? {
        return Refused(refusal.value);
      }
      var row := db.collections[c];
      var after := row.(officer := cmd.officer.GetOr(row.officer), date := cmd.date.GetOr(row.date),
                        area := cmd.area.GetOr(row.area), mode := cmd.mode.GetOr(row.mode));
      if cmd.mode == Some(PerHouse) {
        after := after.(total := 0);
      }
      if cmd.total.Some? {
        after := after.(total := cmd.total.value);
      }
      db.collections := db.collections[c := after];
      reply := Done(c);
    }

    method StartCollection(actor: Actor, c: Id) returns (reply: Reply)
      requires db.Valid()
      modifies db`collections
      ensures db.Valid() && Evolves(old(db.Snapshot()), db.Snapshot())
      ensures Outcome(db.Snapshot(), reply) == StartStep(old(db.Snapshot()), actor, c)
    {
      StartKept(db.Snapshot(), actor, c);
      var refusal := OwnEdit(actor, c);
      if refusal.Some? {
        return Refused(refusal.value);
      }
      if db.collections[c].status !in {CollectionStatus.Draft, CollectionStatus.Rejected} {
        return Refused(WrongStatus);
      }
      db.collections := db.collections[c := db.collections[c].(status := InProgress)];
      reply := Done(c);
    }

    method CancelCollection(actor: Actor, c: Id) returns (reply: Reply)
      requires db.Valid()
      modifies db`collections
      ensures db.Valid() && Evolves(old(db.Snapshot()), db.Snapshot())
      ensures Outcome(db.Snapshot(), reply) == CancelCollectionStep(old(db.Snapshot()), actor, c)
    {
      CancelCollectionKept(db.Snapshot(), actor, c);
      if !(c in db.collections && db.collections[c].rt == actor.rt) {
        return Refused(NotFound);
      }
      if db.collections[c].status == CollectionStatus.Validated {
        return Refused(WrongStatus);
      }
      db.collections := db.collections[c := db.collections[c].(status := CollectionStatus.Cancelled)];
      reply := Done(c);
    }

    /** A session that is not in progress yet becomes so. */
    method Progress(c: Id)
      requires c in db.collections && Editable(db.collections[c].status)
      modifies db`collections
      ensures db.collections == old(db.collections)[c := old(db.collections)[c].(status := InProgress)]
    {
      if db.collections[c].status in {CollectionStatus.Draft, CollectionStatus.Rejected} {
        db.collections := db.collections[c := db.collections[c].(status := InProgress)];
      }
    }

    method GenerateChecklist(actor: Actor, c: Id) returns (reply: Reply)
      requires db.Valid()
      modifies db`collections
      ensures db.Valid() && Evolves(old(db.Snapshot()), db.Snapshot())
      ensures Outcome(db.Snapshot(), reply) == GenerateStep(old(db.Snapshot()), actor, c)
    {
      GenerateKept(db.Snapshot(), actor, c);
      var refusal := OwnEdit(actor, c);
      if refusal.Some? {
        return Refused(refusal.value);
      }
      if db.collections[c].mode == BulkTotal {
        return Refused(WrongMode);
      }
      Progress(c);
      reply := Done(c);
    }

    // ----- Items and totals --------------------------------------------------------------------

    /** One upsert per input, each overwriting the item its house may have. */
    method UpsertAll(c: Id, batch: seq<ItemInput>)
      requires c in db.collections
      modifies db`collections
      ensures db.Snapshot() == old(db.Snapshot()).(collections := old(db.collections)[c :=
                old(db.collections)[c].(items := Upserted(old(db.collections)[c].items, batch))])
    {
      ghost var before := db.collections;
      ghost var start := db.Snapshot();
      assert before == before[c := before[c].(items := Upserted(before[c].items, []))];
      for i := 0 to |batch|
        invariant c in db.collections
        invariant db.collections == before[c := before[c].(items := Upserted(before[c].items, batch[..i]))]
        invariant db.Snapshot() == start.(collections := db.collections)
      {
        assert batch[..i + 1][..i] == batch[..i] && batch[..i + 1][i] == batch[i];
        assert Upserted(before[c].items, batch[..i + 1])
            == Upserted(before[c].items, batch[..i])[batch[i].house := Item(batch[i].status, batch[i].amount)];
        var row := db.collections[c];
        db.collections := db.collections[c := row.(items := row.items[batch[i].house := Item(batch[i].status, batch[i].amount)])];
      }
      assert batch[..|batch|] == batch;
    }

    /** What is checked of a batch, in this order. */
    method UpsertGuard(actor: Actor, c: Id, batch: seq<ItemInput>) returns (refusal: Option<Refusal>)
      ensures refusal == UpsertRefusal(db.Snapshot(), actor, c, batch)
    {
      refusal := OwnEdit(actor, c);
      if refusal.Some? {
        return;
      }
      if db.collections[c].mode == BulkTotal {
        return Some(WrongMode);
      }
      var distinct := NoDuplicateHouses(batch);
      if !distinct {
        return Some(BadBatch);
      }
      var amounts := ValidItemAmounts(batch);
      if !amounts {
        return Some(BadAmount);
      }
      var assignable := ItemsAssignable(actor.rt, db.collections[c].area, batch);
      refusal := if assignable then None else Some(NotAssignable);
    }

    /** Upserts, then the recalculated total and the status. */
    method StoreItems(c: Id, batch: seq<ItemInput>)
      requires c in db.collections
      modifies db`collections
      ensures var items := Upserted(old(db.collections)[c].items, batch);
              db.collections == old(db.collections)[c :=
                old(db.collections)[c].(items := items, total := PaidSum(items), status := InProgress)]
    {
      UpsertAll(c, batch);
      var total := finance.CalculatePaidTotal(db.collections[c].items);
      db.collections := db.collections[c := db.collections[c].(total := total, status := InProgress)];
    }

    method UpsertCollectionItems(actor: Actor, c: Id, batch: seq<ItemInput>) returns (reply: Reply)
      requires db.Valid()
      modifies db`collections
      ensures db.Valid() && Evolves(old(db.Snapshot()), db.Snapshot())
      ensures Outcome(db.Snapshot(), reply) == UpsertStep(old(db.Snapshot()), actor, c, batch)
    {
      UpsertKept(db.Snapshot(), actor, c, batch);
      var refusal := UpsertGuard(actor, c, batch);
      if refusal.Some? {
        return Refused(refusal.value);
      }
      StoreItems(c, batch);
      reply := Done(c);
    }

    method SetBulkCollectionTotal(actor: Actor, c: Id, total: int) returns (reply: Reply)
      requires db.Valid()
      modifies db`collections
      ensures db.Valid() && Evolves(old(db.Snapshot()), db.Snapshot())
      ensures Outcome(db.Snapshot(), reply) == SetBulkStep(old(db.Snapshot()), actor, c, total)
    {
      SetBulkKept(db.Snapshot(), actor, c, total);
      var refusal := OwnEdit(actor, c);
      if refusal.Some? {
        return Refused(refusal.value);
      }
      if db.collections[c].mode != BulkTotal {
        return Refused(WrongMode);
      }
      if !BulkAmount(total) {
        return Refused(BadAmount);
      }
      db.collections := db.collections[c := db.collections[c].(total := total, status := InProgress)];
      reply := Done(c);
    }

    // ----- Submission --------------------------------------------------------------------------

    /** The total a submission stores: calculated again, unless it was entered as a whole. */
    method RecalculatedTotal(c: Id) returns (total: int)
      requires c in db.collections
      ensures total == SubmittedTotal(db.collections[c])
    {
      total := db.collections[c].total;
      if db.collections[c].mode != BulkTotal {
        total := finance.CalculatePaidTotal(db.collections[c].items);
      }
    }

    /** Readiness is checked with the stored total and again with the recalculated one. */
    method SubmitCollection(actor: Actor, c: Id, request: Option<string>) returns (reply: Reply)
      requires db.Valid()
      modifies db`collections
      ensures db.Valid() && Evolves(old(db.Snapshot()), db.Snapshot())
      ensures Outcome(db.Snapshot(), reply) == SubmitStep(old(db.Snapshot()), actor, c, request)
    {
      SubmitKept(db.Snapshot(), actor, c, request);
      var refusal := OwnEdit(actor, c);
      if refusal.Some? {
        return Refused(refusal.value);
      }
      var row := db.collections[c];
      if !SubmissionReady(row.mode, row.total, |row.items|) {
        return Refused(NotReady);
      }
      var total := RecalculatedTotal(c);
      if !SubmissionReady(row.mode, total, |row.items|) {
        return Refused(NotReady);
      }
      if RequestTaken(db.collections, actor.rt, c, request) {
        return Refused(UniqueViolation);
      }
      var stored := if request.Some? then request else row.submitRequest;
      db.collections := db.collections[c := row.(status := Submitted, total := total, submitRequest := stored)];
      reply := Done(c);
    }

    method ValidateCollection(actor: Actor, c: Id) returns (reply: Reply)
      requires db.Valid()
      modifies db`collections
      ensures db.Valid() && Evolves(old(db.Snapshot()), db.Snapshot())
      ensures Outcome(db.Snapshot(), reply) == ValidateStep(old(db.Snapshot()), actor, c)
    {
      ValidateKept(db.Snapshot(), actor, c);
      if !(c in db.collections && db.collections[c].rt == actor.rt) {
        return Refused(NotFound);
      }
      var row := db.collections[c];
      if row.status != Submitted {
        return Refused(WrongStatus);
      }
      if !SubmissionReady(row.mode, row.total, |row.items|) {
        return Refused(NotReady);
      }
      db.collections := db.collections[c := row.(status := CollectionStatus.Validated)];
      reply := Done(c);
    }

    method RejectCollection(actor: Actor, c: Id) returns (reply: Reply)
      requires db.Valid()
      modifies db`collections
      ensures db.Valid() && Evolves(old(db.Snapshot()), db.Snapshot())
      ensures Outcome(db.Snapshot(), reply) == RejectStep(old(db.Snapshot()), actor, c)
    {
      RejectKept(db.Snapshot(), actor, c);
      if !(c in db.collections && db.collections[c].rt == actor.rt) {
        return Refused(NotFound);
      }
      if db.collections[c].status != Submitted {
        return Refused(WrongStatus);
      }
      db.collections := db.collections[c := db.collections[c].(status := CollectionStatus.Rejected, wasRejected := true)];
      reply := Done(c);
    }

    /**
     The service's validation: the session is validated and committed, then the finance hook posts it
     under the key of the collection. The second answer is the hook's; a refusal there is an error of
     the whole call, and the session stays validated.
     */
    method ValidateThenPost(actor: Actor, c: Id, ids: NewIds) returns (reply: Reply, posted: Option<Reply>)
      requires Valid() && db.Valid()
      modifies db`collections, db`accounts, db`categories, db`txns, db`ledger
      ensures db.Valid() && Evolves(old(db.Snapshot()), db.Snapshot())
      ensures reply == ValidateStep(old(db.Snapshot()), actor, c).reply
      ensures posted.Some? <==> reply.Done?
      ensures posted.None? ==> db.Snapshot() == old(db.Snapshot())
      ensures posted.Some? ==>
                Outcome(db.Snapshot(), posted.value)
                == PostCollectionStep(ValidateStep(old(db.Snapshot()), actor, c).db, Actor(actor.user, 0, actor.rt, false), HookCommand(c), ids)
    {
      ghost var before := db.Snapshot();
      reply := ValidateCollection(actor, c);
      ValidateLeavesFinance(before, actor, c);
      if !reply.Done? {
        return reply, None;
      }
      assert db.Snapshot() == ValidateStep(before, actor, c).db;
      var answer := finance.PostValidatedCollection(Actor(actor.user, 0, actor.rt, false), HookCommand(c), ids);
      posted := Some(answer);
    }
  }

  lemma ValidateLeavesFinance(db: Db, actor: Actor, c: Id)
    ensures var step := ValidateStep(db, actor, c);
            && step.db.txns == db.txns && step.db.accounts == db.accounts && step.db.categories == db.categories
            && (step.reply.Done? || step.db == db)
  {
  }

  // ----- Counting -------------------------------------------------------------------------------

  function HousesOf(batch: seq<ItemInput>): set<Id> {
    if batch == [] then {} else HousesOf(batch[..|batch| - 1]) + {batch[|batch| - 1].house}
  }

  lemma {:induction false} HousesOfAll(batch: seq<ItemInput>)
    ensures forall h :: h in HousesOf(batch) <==> exists i :: 0 <= i < |batch| && batch[i].house == h
  {
    if batch != [] {
      var front := batch[..|batch| - 1];
      HousesOfAll(front);
      assert batch == front + [batch[|batch| - 1]];
      assert batch[|batch| - 1].house == batch[|batch| - 1].house;
      forall h | h in HousesOf(front) ensures exists i :: 0 <= i < |batch| && batch[i].house == h {
        var i :| 0 <= i < |front| && front[i].house == h;
        assert batch[i].house == h;
      }
    }
  }

  lemma {:induction false} DistinctByCount(batch: seq<ItemInput>)
    ensures |HousesOf(batch)| <= |batch|
    ensures |HousesOf(batch)| == |batch| <==> DistinctHouses(batch)
  {
    if batch != [] {
      var front, last := batch[..|batch| - 1], batch[|batch| - 1];
      DistinctByCount(front);
      assert batch == front + [last];
      LastDistinct(front, last);
      if last.house in HousesOf(front) {
        assert HousesOf(batch) == HousesOf(front);
      }
    }
  }

  lemma LastDistinct(front: seq<ItemInput>, last: ItemInput)
    ensures DistinctHouses(front + [last]) <==> DistinctHouses(front) && last.house !in HousesOf(front)
  {
    HousesOfAll(front);
    var batch := front + [last];
    if last.house in HousesOf(front) {
      var i :| 0 <= i < |front| && front[i].house == last.house;
      assert batch[i].house == batch[|front|].house;
    }
    if DistinctHouses(batch) {
      forall i, j | 0 <= i < j < |front| ensures front[i].house != front[j].house {
        assert batch[i].house != batch[j].house;
      }
    }
  }
}
