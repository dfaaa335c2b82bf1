/** The user repository: the transaction wrapper's commit/rollback
    discipline, and the batched statistics lookup (one IN query for all
    ids, a map keyed by user id, mock statistics when the query fails).
    The database is an oracle. */
module UserRepo {
  import opened Common
  import opened Model

  // ---------------------------------------------------------------------
  // WithTransaction
  // ---------------------------------------------------------------------

  datatype TxStep = Begin | Run | Rollback | Commit

  /** The calls made on the database, in order, and the returned error. */
  datatype TxOutcome = TxOutcome(trace: seq<TxStep>, err: Option<Error>)

  /** WithTransaction, given what BeginTx, the callback and Commit return.
      The rollback's own error is discarded. */
  function WithTransaction(begin: Option<Error>, run: Option<Error>, commit: Option<Error>): (r: TxOutcome)
    ensures |r.trace| >= 1 && r.trace[0] == Begin
    ensures Run in r.trace <==> begin.None?
    ensures Commit in r.trace <==> begin.None? && run.None?
    ensures Rollback in r.trace <==> begin.None? && run.Some?
    ensures begin.Some? ==> r.err == begin
    ensures begin.None? && run.Some? ==> r.err == run
    ensures begin.None? && run.None? ==> r.err == commit
  {
    if begin.Some? then TxOutcome([Begin], begin)
    else if run.Some? then TxOutcome([Begin, Run, Rollback], run)
    else TxOutcome([Begin, Run, Commit], commit)
  }

  /** A transaction is never both committed and rolled back, the callback
      runs at most once, and a nil error means the work was committed. */
  lemma TransactionDiscipline(begin: Option<Error>, run: Option<Error>, commit: Option<Error>)
    ensures var r := WithTransaction(begin, run, commit);
      && !(Commit in r.trace && Rollback in r.trace)
      && multiset(r.trace)[Run] <= 1
      && (r.err.None? ==> Commit in r.trace && commit.None?)
  {
  }

  // ---------------------------------------------------------------------
  // The IN query
  // ---------------------------------------------------------------------

  const StatsHead: string := "SELECT user_id, last_login, login_count FROM user_stats WHERE user_id IN ("

  /** n question marks separated by commas. */
  function Placeholders(n: nat): string
  {
    if n == 0 then "" else if n == 1 then "?" else "?," + Placeholders(n - 1)
  }

  /** The statement for the given ids. */
  function StatsQuery(ids: seq<int>): string
  {
    StatsHead + Placeholders(|ids|) + ")"
  }

  lemma {:induction false} PlaceholdersSnoc(n: nat)
    requires n >= 1
    ensures Placeholders(n + 1) == Placeholders(n) + ",?"
  {
    if n > 1 {
      PlaceholdersSnoc(n - 1);
      assert "?," + (Placeholders(n - 1) + ",?") == ("?," + Placeholders(n - 1)) + ",?";
    }
  }

  /** The query text and arguments as GetStatsForUsers builds them: one
      "?" per id, a comma after all but the last, and the ids as
      arguments in order. */
  method BuildStatsQuery(ids: seq<int>) returns (query: string, args: seq<int>)
    ensures query == StatsQuery(ids)
    ensures args == ids
  {
    query := StatsHead;
    args := [];
    var i := 0;
    while i < |ids|
      invariant 0 <= i <= |ids|
      invariant query == StatsHead + Placeholders(i) + (if 0 < i < |ids| then "," else "")
      invariant args == ids[..i]
    {
      if i > 0 {
        PlaceholdersSnoc(i);
        assert StatsHead + Placeholders(i) + "," + "?" == StatsHead + (Placeholders(i) + ",?");
      }
      query := query + "?";
      if i < |ids| - 1 {
        query := query + ",";
      }
      args := args + [ids[i]];
      i := i + 1;
    }
    assert ids[..|ids|] == ids;
    query := query + ")";
  }

  function Marks(n: nat): (r: seq<string>)
    ensures |r| == n
  {
    seq(n, i => "?")
  }

  /** The placeholder list is a comma-joined list of n marks. */
  lemma {:induction false} PlaceholdersJoin(n: nat)
    ensures Placeholders(n) == Join(Marks(n), ",")
  {
    if n > 1 {
      PlaceholdersJoin(n - 1);
      assert Marks(n)[1..] == Marks(n - 1);
    }
  }

  /** For n ids the list splits at its commas into exactly n "?": n
      placeholders and n - 1 separators. */
  lemma PlaceholderCount(n: nat)
    requires n >= 1
    ensures SplitOn(Placeholders(n), ',') == Marks(n)
  {
    PlaceholdersJoin(n);
    assert [','] + "" == ",";
    SplitJoin(Marks(n), ',', "");
    assert [Marks(n)[0]] + seq(n - 1, i requires 0 <= i < n - 1 => "" + Marks(n)[i + 1]) == Marks(n);
  }

  // ---------------------------------------------------------------------
  // The statistics map
  // ---------------------------------------------------------------------

  /** Inserting the fetched rows in order, keyed by UserID: every entry
      is one of the rows, under its own id. */
  function StatsMap(stats: seq<UserStats>): (m: map<int, UserStats>)
    ensures forall k :: k in m ==> m[k].userId == k && m[k] in stats
    decreases |stats|
  {
    if |stats| == 0 then map[]
    else
      var last := stats[|stats| - 1];
      StatsMap(stats[..|stats| - 1])[last.userId := last]
  }

  /** The keys are exactly the UserIDs of the rows. */
  lemma {:induction false} StatsMapKeys(stats: seq<UserStats>)
    ensures forall k :: k in StatsMap(stats) <==> exists i :: 0 <= i < |stats| && stats[i].userId == k
    decreases |stats|
  {
    if |stats| > 0 {
      var init := stats[..|stats| - 1];
      StatsMapKeys(init);
      assert forall i :: 0 <= i < |init| ==> init[i] == stats[i];
      forall k | k in StatsMap(stats)
        ensures exists i :: 0 <= i < |stats| && stats[i].userId == k
      {
        if k != stats[|stats| - 1].userId {
          var i :| 0 <= i < |init| && init[i].userId == k;
          assert stats[i].userId == k;
        }
      }
    }
  }

  /** The row a key maps to is the last row with that UserID: a later
      duplicate overwrites an earlier one. */
  lemma {:induction false} LastRowWins(stats: seq<UserStats>, i: int)
    requires 0 <= i < |stats|
    requires forall j :: i < j < |stats| ==> stats[j].userId != stats[i].userId
    ensures stats[i].userId in StatsMap(stats) && StatsMap(stats)[stats[i].userId] == stats[i]
    decreases |stats|
  {
    if i < |stats| - 1 {
      var init := stats[..|stats| - 1];
      assert init[i] == stats[i];
      LastRowWins(init, i);
    }
  }

  /** getMockStats: one entry per requested id, with LoginCount = id * 5
      (in 64-bit arithmetic) and the zero LastLogin. */
  function MockStats(ids: seq<int>): (m: map<int, UserStats>)
    ensures m.Keys == set id | id in ids
    ensures forall id :: id in m ==> m[id] == UserStats(id, ZeroTime, Wrap64(id * 5))
    decreases |ids|
  {
    if |ids| == 0 then map[]
    else
      var init := ids[..|ids| - 1];
      var id := ids[|ids| - 1];
      assert ids == init + [id];
      MockStats(init)[id := UserStats(id, ZeroTime, Wrap64(id * 5))]
  }

  /** Where it does not overflow, the mock count is exactly five times
      the id. */
  lemma MockLoginCount(ids: seq<int>, id: int)
    requires id in ids && InInt64(id * 5)
    ensures id in MockStats(ids) && MockStats(ids)[id].loginCount == 5 * id
  {
  }

  /** GetStatsForUsers: no ids means no query; a failed query is replaced
      by mock statistics, so the error is always nil. `findAll` answers the
      query text with its arguments. */
  function GetStatsForUsers(ids: seq<int>, findAll: (string, seq<int>) -> Result<seq<UserStats>>)
    : (r: (map<int, UserStats>, Option<Error>))
    ensures r.1 == None
    ensures |ids| == 0 ==> r.0 == map[]
    ensures |ids| > 0 && findAll(StatsQuery(ids), ids).Err? ==> r.0 == MockStats(ids)
    ensures |ids| > 0 && findAll(StatsQuery(ids), ids).Ok? ==>
              r.0 == StatsMap(findAll(StatsQuery(ids), ids).value)
  {
    if |ids| == 0 then (map[], None)
    else match findAll(StatsQuery(ids), ids)
      case Err(_) => (MockStats(ids), None)
      case Ok(stats) => (StatsMap(stats), None)
  }

  /** With no ids the database is not consulted: any two oracles give the
      same empty answer. */
  lemma NoIdsNoQuery(f1: (string, seq<int>) -> Result<seq<UserStats>>,
                     f2: (string, seq<int>) -> Result<seq<UserStats>>)
    ensures GetStatsForUsers([], f1) == GetStatsForUsers([], f2) == (map[], None)
  {
  }

  /** When the query fails, every requested id, and nothing else, gets an
      entry. */
  lemma FallbackCoversIds(ids: seq<int>, findAll: (string, seq<int>) -> Result<seq<UserStats>>)
    requires |ids| > 0 && findAll(StatsQuery(ids), ids).Err?
    ensures forall id :: id in GetStatsForUsers(ids, findAll).0 <==> id in ids
  {
  }
}
