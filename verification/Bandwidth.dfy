/** Programs that are chosen by how near their reads are to the bandwidth that is left. */
module Bandwidth {
  import opened Machine
  import opened Programs
  import opened Seqs

  function Distance(a: int, b: int): nat {
    if a >= b then a - b else b - a
  }

  /** The bandwidth left stays non-negative, and is reduced as intended exactly when the overdraft fits. */
  lemma SpendStays(bw: int, rd: U64)
    requires 0 <= bw <= 547208745
    ensures 0 <= Spend(bw, rd)
    ensures Spend(bw, rd) == Left(bw, rd) <==> rd - bw <= 0x8000_0000_0000_0000
  {
  }

  lemma SpendExact(bw: int, rd: U64)
    requires 0 <= bw <= 547208745 && rd < 0x8000_0000_0000_0000
    ensures Spend(bw, rd) == Left(bw, rd)
  {
  }

  function Left(bw: int, rd: int): int {
    if rd <= bw then bw - rd else 0
  }

  /** The program at `k` is the first of those whose reads are nearest to `bw`. */
  ghost predicate FirstNearest(all: seq<Prog>, bw: int, k: nat)
    requires k < |all|
  {
    var d := Distance(bw, all[k].pd.sum_mem_reads);
    && (forall i :: 0 <= i < |all| ==> d <= Distance(bw, all[i].pd.sum_mem_reads))
    && (forall i :: 0 <= i < k ==> d < Distance(bw, all[i].pd.sum_mem_reads))
  }

  /** `added` is taken from `all` one by one, each the first program nearest to the bandwidth that is then left. */
  ghost predicate NearestInTurn(all: seq<Prog>, bw: int, added: seq<Prog>, rest: seq<Prog>)
    decreases |added|
  {
    && 0 <= bw <= 547208745
    && if added == [] then rest == all
       else exists k: nat :: k < |all| && TakesNearest(all, bw, k, added[0])
              && NearestInTurn(Without(all, k), Left(bw, added[0].pd.sum_mem_reads), added[1..], rest)
  }

  ghost predicate TakesNearest(all: seq<Prog>, bw: int, k: nat, x: Prog)
    requires k < |all|
  {
    all[k] == x && FirstNearest(all, bw, k)
  }

  ghost predicate Readable(s: seq<Prog>) {
    forall i :: 0 <= i < |s| ==> s[i].pd.sum_mem_reads < 0x8000_0000_0000_0000
  }
}
