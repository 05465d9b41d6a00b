/** The durable seals of plans: written once per plan reference, kept for a time, and purged from time to time. */
module InstructionSeals {
  import opened Options
  import opened InstructionRules
  import opened InstructionsGate

  const PurgeInterval: int := 3600000

  datatype Rows = Rows(seals: map<string, Seal>, nextPurgeAt: int, retention: int)

  function Purged(r: Rows, now: int): Rows {
    if now < r.nextPurgeAt then r
    else r.(nextPurgeAt := now + PurgeInterval,
            seals := map planRef | planRef in r.seals && !(r.seals[planRef].sealedAt < now - r.retention) :: r.seals[planRef])
  }

  function Written(r: Rows, planRef: string, seal: Seal, now: int): Rows {
    var purged := Purged(r, now);
    purged.(seals := purged.seals[planRef := seal.(sealedAt := now)])
  }

  function Found(r: Rows, planRef: string, now: int): Option<Seal> {
    if planRef in r.seals && !(r.seals[planRef].sealedAt < now - r.retention) then Some(r.seals[planRef]) else None
  }

  /** Purging is not seen by any later lookup. */
  lemma PurgeIsUnseen(r: Rows, planRef: string, now: int, later: int)
    requires now <= later
    ensures Found(Purged(r, now), planRef, later) == Found(r, planRef, later)
  {
  }

  /** A seal is found from when it is written until its retention has passed, and the other seals are as before. */
  lemma WrittenIsFound(r: Rows, planRef: string, seal: Seal, now: int, other: string, later: int)
    requires now <= later
    ensures Found(Written(r, planRef, seal, now), planRef, later)
            == if later - now <= r.retention then Some(seal.(sealedAt := now)) else None
    ensures other != planRef ==> Found(Written(r, planRef, seal, now), other, later) == Found(r, other, later)
  {
    PurgeIsUnseen(r, other, now, later);
  }

  class SealJournal {
    const retentionMs: int
    var rows: map<string, Seal>
    var nextPurgeAt: int

    constructor (retentionMs: int)
      ensures View() == Rows(map[], 0, retentionMs)
    {
      this.retentionMs := retentionMs;
      rows, nextPurgeAt := map[], 0;
    }

    function View(): Rows
      reads this
    {
      Rows(rows, nextPurgeAt, retentionMs)
    }

    method Purge(now: int)
      modifies this
      ensures View() == Purged(old(View()), now)
    {
      if now < nextPurgeAt { return; }
      nextPurgeAt := now + PurgeInterval;
      rows := map planRef | planRef in rows && !(rows[planRef].sealedAt < now - retentionMs) :: rows[planRef];
    }

    method SealPlan(planRef: string, family: string, targets: seq<Target>, rules: RulesDigest, now: int)
      modifies this
      ensures View() == Written(old(View()), planRef, Seal(family, targets, rules, now), now)
    {
      Purge(now);
      rows := rows[planRef := Seal(family, targets, rules, now)];
    }

    method Get(planRef: string, now: int) returns (seal: Option<Seal>)
      ensures seal == Found(View(), planRef, now)
    {
      if planRef !in rows || rows[planRef].sealedAt < now - retentionMs { return None; }
      seal := Some(rows[planRef]);
    }
  }
}
