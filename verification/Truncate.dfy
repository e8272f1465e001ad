/**
 Fitting a response into a UDP datagram (truncateForUDP in internal/server/handler.go): a binary
 search for the longest answer prefix that fits, against the loop that drops one record at a time.
 */
module Truncate {
  import opened Wrappers

  /** The wire size of a message with the given answer; packing may fail. */
  type Packer<!T> = seq<T> -> Option<nat>

  /** Packs answers, and remembers which ones it was asked for. */
  class Oracle<T> {
    const pack: Packer<T>
    ghost var log: seq<seq<T>>

    constructor (p: Packer<T>)
      ensures pack == p && log == []
    {
      pack, log := p, [];
    }

    method Pack(records: seq<T>) returns (size: Option<nat>)
      modifies this`log
      ensures size == pack(records) && log == old(log) + [records]
    {
      size := pack(records);
      log := log + [records];
    }
  }

  class Message<T> {
    var answer: seq<T>
    var truncated: bool

    constructor (records: seq<T>, tc: bool)
      ensures answer == records && truncated == tc
    {
      answer, truncated := records, tc;
    }
  }

  /** Longer prefixes are not smaller on the wire. */
  ghost predicate Monotone<T(!new)>(pack: Packer<T>, records: seq<T>) {
    forall i, j :: 0 <= i <= j <= |records| && pack(records[..i]).Some? && pack(records[..j]).Some? ==>
      pack(records[..i]).value <= pack(records[..j]).value
  }

  /** Every packing in the log succeeded. */
  ghost predicate AllPacked<T(!new)>(pack: Packer<T>, log: seq<seq<T>>) {
    forall i :: 0 <= i < |log| ==> pack(log[i]).Some?
  }

  predicate Fits<T>(pack: Packer<T>, records: seq<T>, budget: nat) {
    pack(records).Some? && pack(records).value <= budget
  }

  predicate Overflows<T>(pack: Packer<T>, records: seq<T>, budget: nat) {
    pack(records).Some? && pack(records).value > budget
  }

  /** The loop the search stands for: drop the last record until the rest fits, or nothing is left. */
  function DropOneByOne<T>(pack: Packer<T>, records: seq<T>, budget: nat): seq<T> {
    if Fits(pack, records, budget) || records == [] then records
    else DropOneByOne(pack, records[..|records| - 1], budget)
  }

  /** What that loop keeps is the longest prefix that fits, or nothing. */
  lemma {:induction false} DropKeepsLongest<T(!new)>(pack: Packer<T>, records: seq<T>, budget: nat, k: nat)
    requires k <= |records| && (k == 0 || Fits(pack, records[..k], budget))
    requires forall j :: k < j <= |records| ==> !Fits(pack, records[..j], budget)
    ensures DropOneByOne(pack, records, budget) == records[..k]
    decreases |records|
  {
    assert records[..|records|] == records;
    if k < |records| {
      var front := records[..|records| - 1];
      assert forall j :: 0 <= j <= |front| ==> front[..j] == records[..j];
      DropKeepsLongest(pack, front, budget, k);
    }
  }

  /** How often n can be halved, rounding up, before it reaches 1. */
  function Halvings(n: nat): nat {
    if n <= 1 then 0 else 1 + Halvings((n + 1) / 2)
  }

  lemma {:induction false} HalvingsGrow(m: nat, n: nat)
    requires m <= n
    ensures Halvings(m) <= Halvings(n)
    decreases n
  {
    if m > 1 {
      HalvingsGrow((m + 1) / 2, (n + 1) / 2);
    }
  }

  function PowerOfTwo(k: nat): nat {
    if k == 0 then 1 else 2 * PowerOfTwo(k - 1)
  }

  /** The halvings of n are its logarithm: 2^(h-1) < n <= 2^h. */
  lemma {:induction false} HalvingsIsLog(n: nat)
    requires n >= 1
    ensures n <= PowerOfTwo(Halvings(n))
    ensures n > 1 ==> PowerOfTwo(Halvings(n) - 1) < n
  {
    if n > 1 {
      HalvingsIsLog((n + 1) / 2);
    }
  }

  /** What one call leaves: the answer and TC, given the packings it made. */
  ghost predicate Outcome<T(!new)>(pack: Packer<T>, records: seq<T>, tc: bool, budget: nat, made: seq<seq<T>>,
                                   answer: seq<T>, truncated: bool)
  {
    if AllPacked(pack, made) then
      answer == DropOneByOne(pack, records, budget) && truncated == (tc || Overflows(pack, records, budget))
    else
      answer == records && truncated == tc
  }

  ghost predicate PrefixesOf<T(!new)>(log: seq<seq<T>>, records: seq<T>) {
    forall i :: 0 <= i < |log| ==> log[i] <= records
  }

  /**
   Shrinks the answer so that the message fits the budget. When one of the packings it asks for
   fails, the message is as before. Otherwise it keeps what dropping one record at a time would
   keep, and sets TC exactly when the full answer overflows. It packs nothing but prefixes of
   the answer, a logarithmic number of times.
   */
  method TruncateForUDP<T(!new)>(m: Message<T>, oracle: Oracle<T>, budget: nat) returns (ghost made: seq<seq<T>>)
    requires Monotone(oracle.pack, m.answer)
    modifies m, oracle`log
    ensures oracle.log == old(oracle.log) + made
    ensures PrefixesOf(made, old(m.answer)) && |made| <= 1 + Halvings(|old(m.answer)|)
    ensures Outcome(oracle.pack, old(m.answer), old(m.truncated), budget, made, m.answer, m.truncated)
  {
    var origAnswer := m.answer;
    var origTC := m.truncated;
    assert origAnswer[..|origAnswer|] == origAnswer;
    var packed := oracle.Pack(m.answer);
    made := [origAnswer];
    OneMorePacking(oracle.pack, [], origAnswer, |origAnswer|);
    assert [] + [origAnswer[..|origAnswer|]] == made;
    if packed.None? {
      return;
    }
    if packed.value <= budget {
      return;
    }
    assert Bracketed(oracle.pack, origAnswer, budget, 0, |origAnswer|);
    hide *;
    ghost var more;
    var lo, hi, failed;
    lo, hi, failed, more := Search(m, oracle, budget, made);
    made := made + more;
    if failed {
      FailedSearch(oracle.pack, origAnswer, origTC, budget, made);
      m.answer := origAnswer;
      m.truncated := origTC;
      return;
    }
    m.answer := origAnswer[..lo];
    m.truncated := true;
    FinishedSearch(oracle.pack, origAnswer, origTC, budget, lo, hi, made);
  }

  /** The binary search for the longest prefix that fits, after the packings in `made`. */
  method Search<T(!new)>(m: Message<T>, oracle: Oracle<T>, budget: nat, ghost made: seq<seq<T>>)
    returns (lo: nat, hi: nat, failed: bool, ghost more: seq<seq<T>>)
    requires Bracketed(oracle.pack, m.answer, budget, 0, |m.answer|)
    requires PrefixesOf(made, m.answer) && AllPacked(oracle.pack, made)
    modifies m`answer, oracle`log
    ensures oracle.log == old(oracle.log) + more && |more| <= Halvings(|old(m.answer)|)
    ensures PrefixesOf(made + more, old(m.answer)) && (failed <==> !AllPacked(oracle.pack, made + more))
    ensures !failed ==> hi <= |old(m.answer)| && hi <= lo + 1 && Bracketed(oracle.pack, old(m.answer), budget, lo, hi)
  {
    var origAnswer := m.answer;
    hide *;
    lo, hi, failed, more := 0, |origAnswer|, false, [];
    assert made + more == made;
    while lo + 1 < hi
      invariant lo <= hi <= |origAnswer| && Bracketed(oracle.pack, origAnswer, budget, lo, hi)
      invariant oracle.log == old(oracle.log) + more && AllPacked(oracle.pack, made + more)
      invariant PrefixesOf(made + more, origAnswer)
      invariant |more| + Halvings(hi - lo) <= Halvings(|origAnswer|)
    {
      var mid := (lo + hi) / 2;
      HalvesShrink(lo, mid, hi);
      m.answer := origAnswer[..mid];
      var packed := oracle.Pack(m.answer);
      OneMorePacking(oracle.pack, made + more, origAnswer, mid);
      assert made + more + [origAnswer[..mid]] == made + (more + [origAnswer[..mid]]);
      more := more + [origAnswer[..mid]];
      if packed.None? {
        failed := true;
        return;
      }
      Narrow(oracle.pack, origAnswer, budget, lo, mid, hi);
      if packed.value <= budget {
        lo := mid;
      } else {
        hi := mid;
      }
    }
  }

  /** The search so far: the first lo records are known to fit, the first hi to overflow. */
  ghost predicate Bracketed<T(!new)>(pack: Packer<T>, records: seq<T>, budget: nat, lo: nat, hi: nat) {
    && lo <= hi <= |records| && (lo == hi ==> records == [])
    && (lo == 0 || Fits(pack, records[..lo], budget))
    && Overflows(pack, records[..hi], budget)
  }

  lemma Narrow<T(!new)>(pack: Packer<T>, records: seq<T>, budget: nat, lo: nat, mid: nat, hi: nat)
    requires Bracketed(pack, records, budget, lo, hi) && lo < mid < hi && pack(records[..mid]).Some?
    ensures if pack(records[..mid]).value <= budget then Bracketed(pack, records, budget, mid, hi)
            else Bracketed(pack, records, budget, lo, mid)
  {
  }

  lemma FailedSearch<T(!new)>(pack: Packer<T>, records: seq<T>, tc: bool, budget: nat, made: seq<seq<T>>)
    requires !AllPacked(pack, made)
    ensures Outcome(pack, records, tc, budget, made, records, tc)
  {
  }

  lemma FinishedSearch<T(!new)>(pack: Packer<T>, records: seq<T>, tc: bool, budget: nat, lo: nat, hi: nat, made: seq<seq<T>>)
    requires Monotone(pack, records) && AllPacked(pack, made)
    requires Bracketed(pack, records, budget, lo, hi) && hi <= lo + 1 && Overflows(pack, records, budget)
    ensures Outcome(pack, records, tc, budget, made, records[..lo], true)
  {
    NothingLongerFits(pack, records, budget, lo, hi);
    DropKeepsLongest(pack, records, budget, lo);
  }

  lemma OneMorePacking<T(!new)>(pack: Packer<T>, made: seq<seq<T>>, records: seq<T>, k: nat)
    requires PrefixesOf(made, records) && AllPacked(pack, made) && k <= |records|
    ensures PrefixesOf(made + [records[..k]], records)
    ensures AllPacked(pack, made + [records[..k]]) <==> pack(records[..k]).Some?
  {
    assert (made + [records[..k]])[|made|] == records[..k];
  }

  /** Either half of the search interval takes one halving fewer. */
  lemma HalvesShrink(lo: nat, mid: nat, hi: nat)
    requires lo + 1 < hi && mid == (lo + hi) / 2
    ensures lo < mid < hi
    ensures 1 + Halvings(mid - lo) <= Halvings(hi - lo) && 1 + Halvings(hi - mid) <= Halvings(hi - lo)
  {
    HalvingsGrow(mid - lo, (hi - lo + 1) / 2);
    HalvingsGrow(hi - mid, (hi - lo + 1) / 2);
  }

  lemma NothingLongerFits<T(!new)>(pack: Packer<T>, records: seq<T>, budget: nat, lo: nat, hi: nat)
    requires Monotone(pack, records) && lo <= hi <= |records| && hi <= lo + 1
    requires Overflows(pack, records[..hi], budget)
    ensures forall j :: lo < j <= |records| ==> !Fits(pack, records[..j], budget)
  {
  }

  /** In sizes: what is kept is within the budget unless nothing is kept, and every longer prefix is over it. */
  lemma KeptIsWithinBudget<T(!new)>(pack: Packer<T>, records: seq<T>, budget: nat) returns (k: nat)
    requires Monotone(pack, records) && forall i :: 0 <= i <= |records| ==> pack(records[..i]).Some?
    ensures k <= |records| && DropOneByOne(pack, records, budget) == records[..k]
    ensures k == 0 || pack(records[..k]).value <= budget
    ensures forall j :: k < j <= |records| ==> pack(records[..j]).value > budget
    ensures Overflows(pack, records, budget) <==> pack(records[..|records|]).value > budget
  {
    assert records[..|records|] == records;
    k := |records|;
    while k > 0 && pack(records[..k]).value > budget
      invariant k <= |records|
      invariant forall j :: k < j <= |records| ==> pack(records[..j]).value > budget
    {
      k := k - 1;
    }
    DropKeepsLongest(pack, records, budget, k);
  }

  /** The datagram size a client may be sent: what it advertised, but at least 512 bytes. */
  function UdpMaxSize(advertised: Option<nat>): (size: nat)
    ensures size >= 512
    ensures advertised.Some? && advertised.value >= 512 ==> size == advertised.value
    ensures advertised.None? || advertised.value < 512 ==> size == 512
  {
    match advertised
    case Some(n) => if n > 512 then n else 512
    case None => 512
  }
}
