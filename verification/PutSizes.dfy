/** How large a Put may be. */
module PutSizes {
  import opened IndexWrites
  import opened Limiter

  /** A Put on its own can deadlock if and only if it has more than 100 chunks or makes more than 2500 rows. */
  lemma {:induction false} LonePutRows(chunks: nat, rows: nat)
    ensures var start := State(MAX_CONCURRENT_PUTS, [NewPut(chunks, BatchCount(rows))]);
            (exists s :: Reachable(s, start, MAX_CONCURRENT_PUTS) && Stuck(s)) <==> chunks > 100 || rows > 2500
  {
    LonePut(chunks, BatchCount(rows));
  }
}
