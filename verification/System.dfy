/** The three modules as one transition system over one database. */
module System {
  import opened Prelude
  import opened Tables
  import opened FinanceOps
  import opened ApprovalOps
  import opened CollectionOps

  datatype Op =
    | Finance(finance: FinanceOp)
    | Approve(approval: ApprovalOp)
    | Collect(collect: CollectionOp)
    | SetMaster(master: MasterData)

  ghost function Step(db: Db, op: Op): Outcome {
    match op
    case Finance(f) => FinanceStep(db, f)
    case Approve(a) => ApprovalStep(db, a)
    case Collect(c) => CollectionStep(db, c)
    case SetMaster(master) => Outcome(db.(master := master), Done(0))
  }

  /** The state after a sequence of service calls. */
  ghost function Run(db: Db, ops: seq<Op>): Db
    decreases |ops|
  {
    if ops == [] then db else Run(Step(db, ops[0]).db, ops[1..])
  }

  function Empty(master: MasterData, platform: Platform): Db {
    Db(map[], map[], map[], [], map[], map[], map[], master, platform)
  }

  ghost predicate Reachable(db: Db) {
    exists master, platform, ops :: db == Run(Empty(master, platform), ops)
  }
}
