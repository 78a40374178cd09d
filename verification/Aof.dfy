/**
 The fsync policy and the rewrite trigger of the append-only file, and what the
 trigger costs over any run. AofFile holds the file itself.
 */
module Aof {
  datatype FsyncMode = EverySec | Always | Never

  const MIN_REWRITE_SIZE: nat := 64 * 1024
  const GROWTH_FACTOR: nat := 2

  /** ShouldRewrite's rule on the file's size and the size it had after the last rewrite. */
  predicate Triggered(size: nat, base: nat) {
    size >= MIN_REWRITE_SIZE && size >= GROWTH_FACTOR * base
  }

  // ------------------------------------------------------------------ the cost of compaction

  datatype Event = Appended(bytes: nat) | Rewrote(size: nat)

  /** Sizes and byte counts along a run: since counts appends after the first rewrite, gap after the latest. */
  datatype Tally = Tally(size: nat, base: nat, rewrites: nat, total: nat, since: nat, gap: nat)

  function Account(t: Tally, ev: Event): Tally {
    match ev
    case Appended(n) => t.(size := t.size + n, since := if t.rewrites > 0 then t.since + n else 0, gap := t.gap + n)
    case Rewrote(m) => Tally(m, m, t.rewrites + 1, t.total + m, t.since, 0)
  }

  function TallyOf(atOpen: nat, evs: seq<Event>): Tally {
    if evs == [] then Tally(atOpen, atOpen, 0, 0, 0, 0)
    else Account(TallyOf(atOpen, evs[..|evs| - 1]), evs[|evs| - 1])
  }

  /** Rewrites happen only when triggered. */
  predicate OnTrigger(atOpen: nat, evs: seq<Event>) {
    evs == [] ||
    (var front, ev := evs[..|evs| - 1], evs[|evs| - 1];
     OnTrigger(atOpen, front) && (ev.Rewrote? ==> Triggered(TallyOf(atOpen, front).size, TallyOf(atOpen, front).base)))
  }

  lemma TallySnoc(atOpen: nat, evs: seq<Event>, ev: Event)
    requires OnTrigger(atOpen, evs)
    requires ev.Rewrote? ==> Triggered(TallyOf(atOpen, evs).size, TallyOf(atOpen, evs).base)
    ensures TallyOf(atOpen, evs + [ev]) == Account(TallyOf(atOpen, evs), ev) && OnTrigger(atOpen, evs + [ev])
  {
    assert (evs + [ev])[..|evs|] == evs;
  }

  lemma {:induction false} OnTriggerAt(atOpen: nat, evs: seq<Event>, i: nat)
    requires OnTrigger(atOpen, evs) && i < |evs|
    ensures OnTrigger(atOpen, evs[..i])
    ensures evs[i].Rewrote? ==> Triggered(TallyOf(atOpen, evs[..i]).size, TallyOf(atOpen, evs[..i]).base)
  {
    var n := |evs| - 1;
    if i < n {
      OnTriggerAt(atOpen, evs[..n], i);
      assert evs[..n][..i] == evs[..i];
    }
  }

  /**
   Compaction is paid for by appends: over any run, all snapshots but the latest
   together are no larger than what was appended since the first rewrite.
   */
  lemma {:induction false} CompactionIsAmortised(atOpen: nat, evs: seq<Event>)
    requires OnTrigger(atOpen, evs)
    ensures var t := TallyOf(atOpen, evs);
            && t.size == t.base + t.gap && (t.rewrites == 0 ==> t.total == 0)
            && (t.rewrites > 0 ==> t.base <= t.total && t.total - t.base + t.gap <= t.since)
  {
    if evs != [] {
      CompactionIsAmortised(atOpen, evs[..|evs| - 1]);
    }
  }

  /** At least 32 KiB are appended before every rewrite. */
  lemma RewritesAreSpaced(atOpen: nat, evs: seq<Event>, i: nat)
    requires OnTrigger(atOpen, evs) && i < |evs| && evs[i].Rewrote?
    ensures TallyOf(atOpen, evs[..i]).gap >= 32 * 1024
  {
    OnTriggerAt(atOpen, evs, i);
    CompactionIsAmortised(atOpen, evs[..i]);
  }
}
