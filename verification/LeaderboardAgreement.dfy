/** The sorted set against the fallback, and against the rank-history log. */
module LeaderboardAgreement {
  import opened LeaderboardZset
  import opened Options
  import opened RankHistory
  import opened Rounding
  import opened Sorting

  function SeedId(s: Seed): EntryId
  {
    s.entry
  }

  predicate Descending(s: seq<Seed>)
  {
    forall i, j :: 0 <= i < j < |s| ==> s[i].points >= s[j].points
  }

  /** The scores are those of the stored entries. */
  ghost predicate Stores(entries: seq<Seed>, scores: map<EntryId, int>)
  {
    && DistinctEntries(entries)
    && (forall s :: s in entries ==> s.entry in scores && scores[s.entry] == ToRedisScore(s.points))
    && (forall e :: e in scores ==> exists s :: s in entries && s.entry == e)
  }

  lemma StoreOneMore(init: seq<Seed>, last: Seed, scores: map<EntryId, int>)
    requires Stores(init, scores) && DistinctEntries(init + [last])
    ensures Stores(init + [last], scores[last.entry := ToRedisScore(last.points)])
  {
    var entries := init + [last];
    forall s | s in init ensures s.entry != last.entry {
      var i :| 0 <= i < |init| && init[i] == s;
      assert entries[i] == s && entries[|init|] == last;
    }
    forall e | e in scores ensures exists s :: s in entries && s.entry == e {
      var s :| s in init && s.entry == e;
      assert s in entries;
    }
    assert last in entries;
  }

  lemma {:induction false} RebuildStores(entries: seq<Seed>)
    requires DistinctEntries(entries)
    ensures Stores(entries, ScoreMap(entries))
  {
    if entries != [] {
      var init, last := entries[..|entries| - 1], entries[|entries| - 1];
      RebuildStores(init);
      assert entries == init + [last];
      StoreOneMore(init, last, ScoreMap(init));
    }
  }

  // ---- Points columns ------------------------------------------------------------------------

  predicate HigherScore(a: Member, b: Member)
  {
    a.score > b.score
  }

  function Members(s: seq<Seed>): seq<Member>
  {
    seq(|s|, k requires 0 <= k < |s| => Member(s[k].entry, ToRedisScore(s[k].points)))
  }

  lemma MembersSorted(ranked: seq<Seed>)
    requires Descending(ranked)
    ensures Sorted(HigherScore, Members(ranked))
  {
    forall i, j | 0 <= i < j < |ranked| ensures !HigherScore(Members(ranked)[j], Members(ranked)[i]) {
      ScoreMonotone(ranked[i].points, ranked[j].points);
    }
  }

  lemma MembersDistinct(entries: seq<Seed>, ranked: seq<Seed>)
    requires DistinctEntries(entries) && multiset(ranked) == multiset(entries)
    ensures DistinctEntries(ranked) && DistinctKeys(MemberId, Members(ranked))
  {
    assert DistinctKeys(SeedId, entries);
    DistinctKeysPermute(SeedId, entries, ranked);
    assert forall i :: 0 <= i < |ranked| ==> SeedId(ranked[i]) == ranked[i].entry == MemberId(Members(ranked)[i]);
  }

  /** Any arrangement of the entries holds the members of the sorted set. */
  lemma SameMembers(z: seq<Member>, scores: map<EntryId, int>, entries: seq<Seed>, ranked: seq<Seed>)
    requires Represents(z, scores) && Stores(entries, scores) && multiset(ranked) == multiset(entries)
    ensures multiset(Members(ranked)) == multiset(z)
  {
    var members := Members(ranked);
    MembersDistinct(entries, ranked);
    forall m ensures multiset(members)[m] == multiset(z)[m] {
      OncePerKey(MemberId, members, m);
      OncePerKey(MemberId, z, m);
      if m in z {
        var s :| s in entries && s.entry == m.entry;
        SameContents(ranked, entries, s);
        var k :| 0 <= k < |ranked| && ranked[k] == s;
        assert members[k] == m;
      }
      if m in members {
        var k :| 0 <= k < |ranked| && members[k] == m;
        SameContents(ranked, entries, ranked[k]);
        assert Member(m.entry, scores[m.entry]) in z;
      }
      assert m in z <==> m in multiset(z);
      assert m in members <==> m in multiset(members);
    }
  }

  lemma HigherScoreOrders()
    ensures StrictWeakOrder(HigherScore)
  {
  }

  /** At every rank the sorted set shows the rounded points of any arrangement by points, ties included. */
  lemma ColumnsAgree(z: seq<Member>, scores: map<EntryId, int>, entries: seq<Seed>, ranked: seq<Seed>)
    requires Represents(z, scores) && Stores(entries, scores)
    requires multiset(ranked) == multiset(entries) && Descending(ranked)
    ensures |z| == |ranked|
    ensures forall k :: 0 <= k < |z| ==> Rows(z)[k].points == FromRedisScore(ToRedisScore(ranked[k].points))
  {
    var members := Members(ranked);
    SameMembers(z, scores, entries, ranked);
    MembersSorted(ranked);
    HigherScoreOrders();
    assert Sorted(HigherScore, z) by {
      forall i, j | 0 <= i < j < |z| ensures !HigherScore(z[j], z[i]) {
        assert !Above(z[j], z[i]);
      }
    }
    assert |z| == |multiset(z)| == |multiset(members)| == |members|;
    forall k | 0 <= k < |z| ensures z[k].score == members[k].score {
      SortedAlike(HigherScore, z, members, k);
      SortedAlike(HigherScore, members, z, k);
    }
  }

  lemma FallbackIsDescending(entries: seq<Seed>)
    ensures multiset(Fallback(entries)) == multiset(entries) && Descending(Fallback(entries))
  {
    assert StrictWeakOrder(EarlierInFallback);
    SortContents(EarlierInFallback, entries);
    SortSorted(EarlierInFallback, entries);
    var f := Fallback(entries);
    forall i, j | 0 <= i < j < |f| ensures f[i].points >= f[j].points {
      assert !EarlierInFallback(f[j], f[i]);
    }
  }

  /** Redis and the fallback show the same points at every rank exactly when all points have two decimals. */
  lemma PointsAgreeIff(z: seq<Member>, scores: map<EntryId, int>, entries: seq<Seed>)
    requires Represents(z, scores) && Stores(entries, scores)
    ensures |Rows(z)| == |FallbackRows(entries)|
    ensures (forall k :: 0 <= k < |z| ==> Rows(z)[k].points == FallbackRows(entries)[k].points)
       <==> (forall s :: s in entries ==> OnGrid(s.points))
  {
    var f := Fallback(entries);
    FallbackIsDescending(entries);
    ColumnsAgree(z, scores, entries, f);
    forall k | 0 <= k < |z|
      ensures Rows(z)[k].points == FallbackRows(entries)[k].points <==> OnGrid(f[k].points)
      ensures f[k] in entries
    {
      ScoreRoundTrip(f[k].points);
      SameContents(f, entries, f[k]);
    }
    forall s | s in entries ensures exists k :: 0 <= k < |f| && f[k] == s {
      SameContents(f, entries, s);
    }
  }

  /** Rows that agree in rank and points. */
  predicate SameColumns(a: seq<RankedRow>, b: seq<RankedRow>)
  {
    |a| == |b| && forall k :: 0 <= k < |a| ==> a[k].rank == b[k].rank && a[k].points == b[k].points
  }

  lemma AllRowsAgree(z: seq<Member>, scores: map<EntryId, int>, entries: seq<Seed>)
    requires Represents(z, scores) && Stores(entries, scores)
    requires forall s :: s in entries ==> OnGrid(s.points)
    ensures SameColumns(Rows(z), FallbackRows(entries)) && |Rows(z)| == |z|
  {
    PointsAgreeIff(z, scores, entries);
  }

  /** Page by page: same ranks, and same points where these have two decimals. */
  lemma PagesAgree(z: seq<Member>, scores: map<EntryId, int>, entries: seq<Seed>, page: nat, pageSize: nat)
    requires Represents(z, scores) && Stores(entries, scores) && page >= 1 && pageSize >= 1
    requires forall s :: s in entries ==> OnGrid(s.points)
    ensures SameColumns(Page(z, page, pageSize), FallbackPage(entries, page, pageSize))
  {
    hide Rows, FallbackRows, Represents, Stores, OnGrid;
    PageBounds(page, pageSize);
    AllRowsAgree(z, scores, entries);
  }

  /** The two sides report the same top score for a page exactly when the page begins with a score tied for the best. */
  lemma TopScoresAgreeIff(z: seq<Member>, scores: map<EntryId, int>, entries: seq<Seed>, page: nat, pageSize: nat)
    requires Represents(z, scores) && Stores(entries, scores) && page >= 1 && pageSize >= 1
    requires forall s :: s in entries ==> OnGrid(s.points)
    ensures 0 <= (page - 1) * pageSize
    ensures TopOf(Page(z, page, pageSize)) == TopOf(FallbackRows(entries))
       <==> z == [] || z[0].score == if (page - 1) * pageSize < |z| then z[(page - 1) * pageSize].score else 0
  {
    hide Rows, FallbackRows, Represents, Stores, OnGrid, Page;
    AllRowsAgree(z, scores, entries);
    PageTopIsBoardTopIff(z, page, pageSize);
  }

  /** The whole rows agree only as long as no two entries tie: the two sides break ties the other way round. */
  lemma EntriesAgreeIff(z: seq<Member>, scores: map<EntryId, int>, entries: seq<Seed>)
    requires Represents(z, scores) && Stores(entries, scores)
    requires forall s :: s in entries ==> OnGrid(s.points)
    ensures Rows(z) == FallbackRows(entries)
       <==> (forall i, j :: 0 <= i < j < |entries| ==> entries[i].points != entries[j].points)
  {
    var f := Fallback(entries);
    FallbackIsDescending(entries);
    PointsAgreeIff(z, scores, entries);
    MembersDistinct(entries, f);
    if Rows(z) == FallbackRows(entries) {
      forall i, j | 0 <= i < j < |entries| ensures entries[i].points != entries[j].points {
        SameContents(f, entries, entries[i]);
        SameContents(f, entries, entries[j]);
        var a :| 0 <= a < |f| && f[a] == entries[i];
        var b :| 0 <= b < |f| && f[b] == entries[j];
        TiesAreReversed(z, scores, entries, a, b);
      }
    } else {
      var k :| 0 <= k < |z| && Rows(z)[k] != FallbackRows(entries)[k];
      TieBehindDifference(z, scores, entries, k);
    }
  }

  lemma TiesAreReversed(z: seq<Member>, scores: map<EntryId, int>, entries: seq<Seed>, a: nat, b: nat)
    requires Represents(z, scores) && Stores(entries, scores) && Rows(z) == FallbackRows(entries)
    requires a < |Fallback(entries)| && b < |Fallback(entries)|
    requires Fallback(entries)[a].entry != Fallback(entries)[b].entry
    ensures Fallback(entries)[a].points != Fallback(entries)[b].points
  {
    var f := Fallback(entries);
    assert StrictWeakOrder(EarlierInFallback);
    SortSorted(EarlierInFallback, entries);
    assert Rows(z)[a] == FallbackRows(entries)[a] && Rows(z)[b] == FallbackRows(entries)[b];
    assert a < b ==> !EarlierInFallback(f[b], f[a]) && !Above(z[b], z[a]);
    assert b < a ==> !EarlierInFallback(f[a], f[b]) && !Above(z[a], z[b]);
  }

  lemma TieBehindDifference(z: seq<Member>, scores: map<EntryId, int>, entries: seq<Seed>, k: nat)
    requires Represents(z, scores) && Stores(entries, scores) && k < |z| == |Fallback(entries)|
    requires Rows(z)[k].points == FallbackRows(entries)[k].points && Rows(z)[k] != FallbackRows(entries)[k]
    requires forall s :: s in entries ==> OnGrid(s.points)
    ensures exists i, j :: 0 <= i < j < |entries| && entries[i].points == entries[j].points
  {
    var f := Fallback(entries);
    FallbackIsDescending(entries);
    assert z[k] in z;
    var s :| s in entries && s.entry == z[k].entry;
    SameContents(f, entries, f[k]);
    ScoreRoundTrip(s.points);
    assert s.points == f[k].points && s.entry != f[k].entry;
    var i :| 0 <= i < |entries| && entries[i] == s;
    var j :| 0 <= j < |entries| && entries[j] == f[k];
    assert i < j || j < i;
  }

  // ---- Any run of updates --------------------------------------------------------------------

  datatype Update = Upserted(entry: EntryId, points: real) | Removed(entry: EntryId)

  /** What the updates make of the stored points, and of the scores in the sorted set. */
  function PointsAfter(points: map<EntryId, real>, updates: seq<Update>): map<EntryId, real>
  {
    if updates == [] then points
    else
      var before := PointsAfter(points, updates[..|updates| - 1]);
      match updates[|updates| - 1]
      case Upserted(e, p) => before[e := p]
      case Removed(e) => before - {e}
  }

  function ScoresAfter(scores: map<EntryId, int>, updates: seq<Update>): map<EntryId, int>
  {
    if updates == [] then scores
    else
      var before := ScoresAfter(scores, updates[..|updates| - 1]);
      match updates[|updates| - 1]
      case Upserted(e, p) => before[e := ToRedisScore(p)]
      case Removed(e) => before - {e}
  }

  function PointsMap(entries: seq<Seed>): map<EntryId, real>
  {
    if entries == [] then map[]
    else PointsMap(entries[..|entries| - 1])[entries[|entries| - 1].entry := entries[|entries| - 1].points]
  }

  function ScoresOf(points: map<EntryId, real>): map<EntryId, int>
  {
    map e | e in points :: ToRedisScore(points[e])
  }

  lemma {:induction false} ScoreMapRounds(entries: seq<Seed>)
    ensures ScoreMap(entries) == ScoresOf(PointsMap(entries))
  {
    if entries != [] {
      ScoreMapRounds(entries[..|entries| - 1]);
    }
  }

  lemma {:induction false} UpdatesKeepStep(points: map<EntryId, real>, updates: seq<Update>)
    ensures ScoresAfter(ScoresOf(points), updates) == ScoresOf(PointsAfter(points, updates))
  {
    if updates != [] {
      UpdatesKeepStep(points, updates[..|updates| - 1]);
    }
  }

  /** `entries` lists the points, each entry once. */
  ghost predicate Lists(entries: seq<Seed>, points: map<EntryId, real>)
  {
    && DistinctEntries(entries)
    && (forall s :: s in entries ==> s.entry in points && points[s.entry] == s.points)
    && (forall e :: e in points ==> exists s :: s in entries && s.entry == e)
  }

  /**
   * A rebuild and any upserts and removes later, the sorted set shows at every
   * rank the points the fallback shows, if these have two decimals.
   */
  lemma AgreeAfterUpdates(start: seq<Seed>, updates: seq<Update>, entries: seq<Seed>, z: seq<Member>)
    requires Represents(z, ScoresAfter(ScoreMap(start), updates))
    requires Lists(entries, PointsAfter(PointsMap(start), updates))
    requires forall s :: s in entries ==> OnGrid(s.points)
    ensures |Rows(z)| == |FallbackRows(entries)|
    ensures forall k :: 0 <= k < |z| ==> Rows(z)[k].points == FallbackRows(entries)[k].points
  {
    var scores := ScoresAfter(ScoreMap(start), updates);
    ScoreMapRounds(start);
    UpdatesKeepStep(PointsMap(start), updates);
    forall e | e in scores ensures exists s :: s in entries && s.entry == e {
      assert e in PointsAfter(PointsMap(start), updates);
    }
    PointsAgreeIff(z, scores, entries);
  }

  // ---- Rebuild and the log -------------------------------------------------------------------

  predicate MorePoints(a: Seed, b: Seed)
  {
    a.points > b.points
  }

  /** The seeds of a rebuild: most points first, in the order the store returned them on ties. */
  function Ranked(entries: seq<Seed>): seq<Seed>
  {
    Sort(MorePoints, entries)
  }

  method RebuildForContest(redis: LeaderboardRedis, log: RankHistoryLog, entries: seq<Seed>,
                           owners: map<EntryId, UserId>, now: int)
    returns (totalEntries: nat, topScore: real, historyRowsWritten: nat)
    requires redis.Valid()
    modifies redis, log
    ensures redis.Valid() && redis.scores == if redis.enabled then ScoreMap(Ranked(entries)) else old(redis.scores)
    ensures log.rows == Recorded(old(log.rows), Snapshot(Ranked(entries), owners, now))
    ensures totalEntries == |entries| && historyRowsWritten == |log.rows| - |old(log.rows)|
    ensures entries != [] ==>
              (exists s :: s in entries && s.points == topScore) && forall s :: s in entries ==> s.points <= topScore
    ensures entries == [] ==> topScore == 0.0
  {
    var seedEntries := Ranked(entries);
    RankedIsDescending(entries);
    redis.Rebuild(seedEntries);
    historyRowsWritten := log.RecordSnapshot(seedEntries, owners, now);
    totalEntries := |seedEntries|;
    topScore := if |seedEntries| == 0 then 0.0 else seedEntries[0].points;
    forall s | s in entries ensures s.points <= topScore {
      SameContents(seedEntries, entries, s);
    }
    if entries != [] {
      SameContents(seedEntries, entries, seedEntries[0]);
    }
  }

  /**
   * A page of the leaderboard. An empty sorted set is first rebuilt from the
   * stored entries, which also records a snapshot.
   */
  method LoadContestPage(redis: LeaderboardRedis, log: RankHistoryLog, entries: seq<Seed>,
                         owners: map<EntryId, UserId>, now: int, page: nat, pageSize: nat)
    returns (rows: seq<RankedRow>, totalEntries: nat, topScore: real)
    requires redis.Valid() && page >= 1 && pageSize >= 1
    modifies redis, log
    ensures redis.Valid()
    ensures var heals := redis.enabled && |old(redis.scores)| == 0 && entries != [];
            && redis.scores == (if heals then ScoreMap(Ranked(entries)) else old(redis.scores))
            && log.rows == if heals then Recorded(old(log.rows), Snapshot(Ranked(entries), owners, now)) else old(log.rows)
    ensures redis.enabled ==> rows == Page(redis.zset, page, pageSize) && totalEntries == |redis.scores| && topScore == TopOf(rows)
    ensures !redis.enabled ==> rows == FallbackPage(entries, page, pageSize) && totalEntries == |entries|
                               && topScore == TopOf(FallbackRows(entries))
  {
    if !redis.enabled {
      rows, totalEntries, topScore := LoadContestPageFromMongo(entries, page, pageSize);
      return;
    }
    totalEntries := redis.Size();
    if totalEntries == 0 && |entries| > 0 {
      var _, _, _ := RebuildForContest(redis, log, entries, owners, now);
    }
    PageBounds(page, pageSize);
    var from := (page - 1) * pageSize;
    rows := redis.Range(from, from + pageSize - 1);
    totalEntries := redis.Size();
    topScore := TopOf(rows);
  }

  lemma RankedIsDescending(entries: seq<Seed>)
    ensures multiset(Ranked(entries)) == multiset(entries) && Descending(Ranked(entries))
    ensures |Ranked(entries)| == |entries|
  {
    assert StrictWeakOrder(MorePoints);
    SortContents(MorePoints, entries);
    SortSorted(MorePoints, entries);
    var r := Ranked(entries);
    forall i, j | 0 <= i < j < |r| ensures r[i].points >= r[j].points {
      assert !MorePoints(r[j], r[i]);
    }
  }

  lemma {:induction false} StandingIsPosition(snap: Snapshot, n: nat, e: EntryId)
    requires n <= |snap.seeds| && StandingAmong(snap, n, e).Some?
    ensures var now := StandingAmong(snap, n, e).value;
            1 <= now.rank <= n && snap.seeds[now.rank - 1] == Seed(e, now.points)
  {
    if snap.seeds[n - 1].entry != e {
      StandingIsPosition(snap, n - 1, e);
    }
  }

  /** After a rebuild the log and the sorted set give an entry the same points at the rank the log records. */
  lemma LogMatchesBoard(snaps: seq<Snapshot>, e: EntryId, z: seq<Member>)
    requires Chronological(snaps) && snaps != [] && Descending(snaps[|snaps| - 1].seeds)
    requires Represents(z, ScoreMap(snaps[|snaps| - 1].seeds))
    requires StandingIn(snaps[|snaps| - 1], e).Some?
    ensures var latest := LatestRow(History(snaps), e);
            && latest.Some? && 1 <= latest.value.rank <= |z|
            && Rows(z)[latest.value.rank - 1].points == FromRedisScore(ToRedisScore(latest.value.points))
  {
    var snap := snaps[|snaps| - 1];
    LatestRowIsCurrent(snaps, e);
    BoardAtPosition(snap, e, z);
  }

  lemma BoardAtPosition(snap: Snapshot, e: EntryId, z: seq<Member>)
    requires DistinctEntries(snap.seeds) && Descending(snap.seeds)
    requires Represents(z, ScoreMap(snap.seeds)) && StandingIn(snap, e).Some?
    ensures var now := StandingIn(snap, e).value;
            1 <= now.rank <= |z| && Rows(z)[now.rank - 1].points == FromRedisScore(ToRedisScore(now.points))
  {
    StandingIsPosition(snap, |snap.seeds|, e);
    RebuildStores(snap.seeds);
    ColumnsAgree(z, ScoreMap(snap.seeds), snap.seeds, snap.seeds);
  }
}
