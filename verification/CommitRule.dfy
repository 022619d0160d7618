/**
 * The commit rule of `BatchedPacketsService.flush`: rows are added to one JDBC
 * statement batch, and after the row whose 0-based position `i` satisfies
 * `i % 15 == 0` the batch is executed and the connection committed; after the
 * loop one final execute/commit runs. A row therefore ends up in the commit that
 * closes after it, so commits hold 1, 15, 15, ... rows, then whatever is left.
 *
 * Everything here is generic in the row type: the rule only looks at positions.
 */
module CommitRule {

  /** The number of rows in every commit except the first and the last. */
  const ChunkSize: nat := 15

  /** Where, if anywhere, a flush meets an SQLException. */
  datatype Fault =
    | NoFault
      /** `getConnection`, `setAutoCommit(false)` or `prepareStatement` fails: nothing is staged. */
    | ConnectFails
      /** Staging, executing or committing row `k` (0-based) fails; no row from `k` on is committed. */
    | RowFails(k: nat)
      /** The final `executeBatch`/`commit` after the loop fails. */
    | FinalFails

  /** True when the loop commits right after the row at 0-based position `i`. */
  predicate CommitsAfter(i: nat) {
    i % ChunkSize == 0
  }

  /**
   * How many rows are committed when the loop is about to stage row `i`:
   * the start of the chunk that is still open at that point.
   */
  function ChunkStart(i: nat): (c: nat)
    ensures c <= i
  {
    if i == 0 then 0
    else if CommitsAfter(i - 1) then i
    else ChunkStart(i - 1)
  }

  /** The open chunk closes after row `i` exactly when the commit rule fires there. */
  lemma ChunkStartStep(i: nat)
    ensures ChunkStart(i + 1) == if CommitsAfter(i) then i + 1 else ChunkStart(i)
  {
  }

  /** Staging one more row extends the open chunk by that row. */
  lemma SliceSnoc<T>(rows: seq<T>, a: nat, b: nat)
    requires a <= b < |rows|
    ensures rows[a..b] + [rows[b]] == rows[a..b + 1]
  {
  }

  /** Committing the open chunk after earlier commits gives the earlier rows and then the prefix. */
  lemma CommitChunk<T>(before: seq<T>, rows: seq<T>, a: nat, b: nat)
    requires a <= b <= |rows|
    ensures (before + rows[..a]) + rows[a..b] == before + rows[..b]
  {
    PrefixJoin(rows, a, b);
  }

  /** Closed form: after the first row, chunks open at 1, 16, 31, ... */
  lemma {:induction false} ChunkStartClosedForm(i: nat)
    ensures i == 0 ==> ChunkStart(i) == 0
    ensures i > 0 ==> ChunkStart(i) == (i - 1) / ChunkSize * ChunkSize + 1
    ensures i > 0 ==> 1 <= ChunkStart(i) && i - ChunkStart(i) < ChunkSize
  {
    if i > 1 {
      ChunkStartClosedForm(i - 1);
      var q, r := (i - 1) / 15, (i - 1) % 15;
      assert i - 1 == q * 15 + r && 0 <= r < 15;
      if r != 0 {
        assert (i - 2) / 15 == q;
      }
    }
  }

  /** Concatenation of a sequence of commits, in commit order. */
  function Concat<T>(commits: seq<seq<T>>): (rows: seq<T>)
    ensures commits == [] ==> rows == []
  {
    if commits == [] then []
    else Concat(commits[..|commits| - 1]) + commits[|commits| - 1]
  }

  lemma ConcatSnoc<T>(commits: seq<seq<T>>, last: seq<T>)
    ensures Concat(commits + [last]) == Concat(commits) + last
  {
    assert (commits + [last])[..|commits|] == commits;
  }

  /**
   * The commits the loop has made after staging rows `0 .. i-1`: one commit
   * for every position `j < i` with `CommitsAfter(j)`, holding the rows staged
   * since the previous commit.
   */
  function LoopCommits<T>(rows: seq<T>, i: nat): seq<seq<T>>
    requires i <= |rows|
  {
    if i == 0 then []
    else
      LoopCommits(rows, i - 1)
      + (if CommitsAfter(i - 1) then [rows[ChunkStart(i - 1)..i]] else [])
  }

  /** The commits a whole flush makes, depending on where it fails. */
  function FlushCommits<T>(rows: seq<T>, fault: Fault): seq<seq<T>> {
    match fault
    case NoFault => LoopCommits(rows, |rows|) + [rows[ChunkStart(|rows|)..]]
    case ConnectFails => []
    case RowFails(k) =>
      if k < |rows| then LoopCommits(rows, k)
      else LoopCommits(rows, |rows|) + [rows[ChunkStart(|rows|)..]]
    case FinalFails => LoopCommits(rows, |rows|)
  }

  /** The loop's commits hold exactly the rows before the open chunk, in order, once each. */
  lemma {:induction false} LoopCommitsConcat<T>(rows: seq<T>, i: nat)
    requires i <= |rows|
    ensures Concat(LoopCommits(rows, i)) == rows[..ChunkStart(i)]
  {
    if i > 0 {
      LoopCommitsConcat(rows, i - 1);
      ChunkStartStep(i - 1);
      var before, a := LoopCommits(rows, i - 1), ChunkStart(i - 1);
      if CommitsAfter(i - 1) {
        assert LoopCommits(rows, i) == before + [rows[a..i]];
        ConcatSnoc(before, rows[a..i]);
        PrefixJoin(rows, a, i);
      } else {
        assert LoopCommits(rows, i) == before + [];
        assert before + [] == before;
      }
    }
  }

  /** The committed prefix followed by the open chunk is the prefix of staged rows. */
  lemma PrefixJoin<T>(rows: seq<T>, a: nat, b: nat)
    requires a <= b <= |rows|
    ensures rows[..a] + rows[a..b] == rows[..b]
  {
  }

  /**
   * The shape of the loop's commits: one per 15 rows (rounded up), the first
   * holding the single first row and every later one exactly 15 rows.
   */
  lemma {:induction false} LoopCommitsShape<T>(rows: seq<T>, i: nat)
    requires i <= |rows|
    ensures |LoopCommits(rows, i)| == (i + ChunkSize - 1) / ChunkSize
    ensures forall j :: 0 <= j < |LoopCommits(rows, i)| ==>
              |LoopCommits(rows, i)[j]| == if j == 0 then 1 else ChunkSize
  {
    if i > 0 {
      LoopCommitsShape(rows, i - 1);
      var before := LoopCommits(rows, i - 1);
      if CommitsAfter(i - 1) {
        var chunk := rows[ChunkStart(i - 1)..i];
        assert LoopCommits(rows, i) == before + [chunk];
        ChunkStartClosedForm(i - 1);
        assert |chunk| == if i == 1 then 1 else ChunkSize;
        CommitCount(i);
      } else {
        assert LoopCommits(rows, i) == before + [];
        assert before + [] == before;
        CommitCount(i);
      }
    }
  }

  /** One more row raises the rounded-up number of chunks exactly when the rule fires before it. */
  lemma CommitCount(i: nat)
    requires i > 0
    ensures (i + 14) / 15 == (i + 13) / 15 + (if (i - 1) % 15 == 0 then 1 else 0)
  {
    var q, r := (i - 1) / 15, (i - 1) % 15;
    assert i - 1 == q * 15 + r && 0 <= r < 15;
    if r == 0 {
      assert (i + 14) / 15 == q + 1 && (i + 13) / 15 == q;
    } else {
      assert (i + 14) / 15 == q + 1 && (i + 13) / 15 == q + 1;
    }
  }

  /** Without a failure, the commits of a flush together hold every row exactly once, in order. */
  lemma FlushCommitsComplete<T>(rows: seq<T>)
    ensures Concat(FlushCommits(rows, NoFault)) == rows
  {
    LoopCommitsConcat(rows, |rows|);
    ConcatSnoc(LoopCommits(rows, |rows|), rows[ChunkStart(|rows|)..]);
    assert rows[..ChunkStart(|rows|)] + rows[ChunkStart(|rows|)..] == rows;
  }

  /** The number of rows a flush of `n` rows leaves committed, given where it fails. */
  function PersistedCount(n: nat, fault: Fault): (c: nat)
    ensures c <= n
  {
    match fault
    case NoFault => n
    case ConnectFails => 0
    case RowFails(k) => if k < n then ChunkStart(k) else n
    case FinalFails => ChunkStart(n)
  }

  /** Whatever the failure, what a flush commits is a prefix of its rows, of length `PersistedCount`. */
  lemma FlushCommitsPrefix<T>(rows: seq<T>, fault: Fault)
    ensures Concat(FlushCommits(rows, fault)) == rows[..PersistedCount(|rows|, fault)]
  {
    match fault
    case NoFault =>
      FlushCommitsComplete(rows);
    case ConnectFails =>
    case RowFails(k) =>
      if k < |rows| {
        LoopCommitsConcat(rows, k);
      } else {
        FlushCommitsComplete(rows);
      }
    case FinalFails =>
      LoopCommitsConcat(rows, |rows|);
  }

  /**
   * A flush is not all-or-nothing: a failure at any row after the first
   * leaves at least the first row committed but not every row, and only the
   * rows staged since the last commit (at most 15, counting the failing row)
   * are rolled back from among those already reached.
   */
  lemma PartialFlush<T>(rows: seq<T>, k: nat)
    requires 1 <= k < |rows|
    ensures 1 <= |Concat(FlushCommits(rows, RowFails(k)))| <= k < |rows|
    ensures k - |Concat(FlushCommits(rows, RowFails(k)))| < ChunkSize
  {
    FlushCommitsPrefix(rows, RowFails(k));
    ChunkStartClosedForm(k);
  }
}
