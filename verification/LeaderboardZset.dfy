/**
 * The leaderboard of a contest as a Redis sorted set, and the fallback that
 * sorts the stored entries when Redis is not available.
 */
module LeaderboardZset {
  import opened Options
  import opened Prizes
  import opened RankHistory
  import opened Rounding
  import opened Sorting

  /** Object ids are hexadecimal strings of one length, so their order is that of numbers. */
  datatype Member = Member(entry: EntryId, score: int)

  datatype RankedRow = RankedRow(entry: EntryId, points: real, rank: nat)

  // ---- Scores --------------------------------------------------------------------------------

  function ToRedisScore(points: real): int
  {
    Round(points * 100.0)
  }

  function FromRedisScore(score: int): real
  {
    Round(score as real) as real / 100.0
  }

  /** A score reads back as the points that went in exactly when they have two decimals. */
  lemma ScoreRoundTrip(points: real)
    ensures FromRedisScore(ToRedisScore(points)) == points <==> OnGrid(points)
    ensures OnGrid(FromRedisScore(ToRedisScore(points)))
    ensures -0.005 < FromRedisScore(ToRedisScore(points)) - points <= 0.005
  {
    var score := ToRedisScore(points);
    assert Round(score as real) == score;
    assert FromRedisScore(score) * 100.0 == score as real;
  }

  lemma ScoreMonotone(a: real, b: real)
    requires a >= b
    ensures ToRedisScore(a) >= ToRedisScore(b)
  {
  }

  // ---- The sorted set ------------------------------------------------------------------------

  /** Descending order: the higher score, then the lexically larger member. */
  predicate Above(a: Member, b: Member)
  {
    a.score > b.score || (a.score == b.score && a.entry > b.entry)
  }

  function MemberId(m: Member): EntryId
  {
    m.entry
  }

  /** `z` lists the members of the map, best first. */
  ghost predicate Represents(z: seq<Member>, scores: map<EntryId, int>)
  {
    && Sorted(Above, z) && DistinctKeys(MemberId, z)
    && (forall m :: m in z ==> m.entry in scores && scores[m.entry] == m.score)
    && (forall e :: e in scores ==> Member(e, scores[e]) in z)
  }

  function Without(z: seq<Member>, e: EntryId): seq<Member>
  {
    if z == [] then [] else (if z[0].entry == e then [] else [z[0]]) + Without(z[1..], e)
  }

  function ZAdd(z: seq<Member>, e: EntryId, score: int): seq<Member>
  {
    Insert(Above, Member(e, score), Without(z, e))
  }

  function ZRevRange(z: seq<Member>, from: nat, to: nat): seq<Member>
  {
    if from > to || from >= |z| then [] else z[from..if to < |z| then to + 1 else |z|]
  }

  function ZRevRank(z: seq<Member>, e: EntryId): (index: Option<nat>)
    ensures index.Some? ==> index.value < |z| && z[index.value].entry == e
    ensures index.None? ==> forall m :: m in z ==> m.entry != e
  {
    if z == [] then None
    else if z[0].entry == e then Some(0)
    else
      var rest := ZRevRank(z[1..], e);
      if rest.None? then None else Some(rest.value + 1)
  }

  /** All rows of the leaderboard. */
  function Rows(z: seq<Member>): seq<RankedRow>
  {
    seq(|z|, k requires 0 <= k < |z| => RankedRow(z[k].entry, FromRedisScore(z[k].score), k + 1))
  }

  function RowsBetween(z: seq<Member>, from: nat, to: nat): seq<RankedRow>
  {
    if from > to || from >= |z| then [] else Rows(z)[from..if to < |z| then to + 1 else |z|]
  }

  function ScoreMap(entries: seq<Seed>): map<EntryId, int>
  {
    if entries == [] then map[]
    else
      var last := entries[|entries| - 1];
      ScoreMap(entries[..|entries| - 1])[last.entry := ToRedisScore(last.points)]
  }

  lemma AboveOrders()
    ensures StrictWeakOrder(Above)
  {
  }

  lemma {:induction false} WithoutMember(z: seq<Member>, e: EntryId)
    ensures forall m :: m in Without(z, e) <==> m in z && m.entry != e
  {
    if z != [] {
      WithoutMember(z[1..], e);
      assert z == [z[0]] + z[1..];
    }
  }

  lemma {:induction false} WithoutKeepsOrder(z: seq<Member>, e: EntryId)
    requires Sorted(Above, z) && DistinctKeys(MemberId, z)
    ensures Sorted(Above, Without(z, e)) && DistinctKeys(MemberId, Without(z, e))
  {
    if z != [] {
      var rest := Without(z[1..], e);
      WithoutKeepsOrder(z[1..], e);
      WithoutMember(z[1..], e);
      forall k | 0 <= k < |rest| ensures !Above(rest[k], z[0]) && rest[k].entry != z[0].entry {
        assert rest[k] in z[1..];
        var i :| 0 <= i < |z[1..]| && z[1..][i] == rest[k];
        assert z[i + 1] == rest[k];
        assert MemberId(z[i + 1]) != MemberId(z[0]);
      }
    }
  }

  lemma RemoveRepresents(z: seq<Member>, scores: map<EntryId, int>, e: EntryId)
    requires Represents(z, scores)
    ensures Represents(Without(z, e), scores - {e})
  {
    WithoutMember(z, e);
    WithoutKeepsOrder(z, e);
  }

  lemma InsertedContents(x: Member, rest: seq<Member>)
    requires Sorted(Above, rest) && DistinctKeys(MemberId, rest)
    requires forall m :: m in rest ==> m.entry != x.entry
    ensures Sorted(Above, Insert(Above, x, rest)) && DistinctKeys(MemberId, Insert(Above, x, rest))
    ensures multiset(Insert(Above, x, rest)) == multiset([x] + rest)
  {
    AboveOrders();
    InsertSorted(Above, x, rest);
    InsertContents(Above, x, rest);
    assert multiset([x] + rest) == multiset(rest) + multiset{x};
    forall k | 0 <= k < |rest| ensures MemberId(rest[k]) != MemberId(x) {
      assert rest[k] in rest;
    }
    DistinctKeysPermute(MemberId, [x] + rest, Insert(Above, x, rest));
  }

  lemma AddRepresents(z: seq<Member>, scores: map<EntryId, int>, e: EntryId, score: int)
    requires Represents(z, scores)
    ensures Represents(ZAdd(z, e, score), scores[e := score])
  {
    hide Without, Insert;
    var x, rest := Member(e, score), Without(z, e);
    WithoutMember(z, e);
    WithoutKeepsOrder(z, e);
    InsertedContents(x, rest);
    forall m ensures m in ZAdd(z, e, score) <==> m == x || m in rest {
      SameContents([x] + rest, ZAdd(z, e, score), m);
    }
  }

  // ---- The wrapper ---------------------------------------------------------------------------

  class LeaderboardRedis {
    const enabled: bool
    var zset: seq<Member>
    ghost var scores: map<EntryId, int>

    ghost predicate Valid()
      reads this
    {
      Represents(zset, scores)
    }

    constructor (enabled: bool)
      ensures Valid() && scores == map[] && this.enabled == enabled
    {
      this.enabled, zset, scores := enabled, [], map[];
    }

    method Rebuild(entries: seq<Seed>)
      requires Valid()
      modifies this
      ensures Valid() && scores == if enabled then ScoreMap(entries) else old(scores)
    {
      if !enabled {
        return;
      }
      zset, scores := [], map[];
      for i := 0 to |entries|
        invariant Valid() && scores == ScoreMap(entries[..i])
      {
        assert entries[..i + 1][..i] == entries[..i];
        AddRepresents(zset, scores, entries[i].entry, ToRedisScore(entries[i].points));
        zset := ZAdd(zset, entries[i].entry, ToRedisScore(entries[i].points));
        scores := scores[entries[i].entry := ToRedisScore(entries[i].points)];
      }
      assert entries[..|entries|] == entries;
    }

    method Upsert(entry: EntryId, points: real)
      requires Valid()
      modifies this
      ensures Valid() && scores == if enabled then old(scores)[entry := ToRedisScore(points)] else old(scores)
    {
      if !enabled {
        return;
      }
      AddRepresents(zset, scores, entry, ToRedisScore(points));
      zset := ZAdd(zset, entry, ToRedisScore(points));
      scores := scores[entry := ToRedisScore(points)];
    }

    method Remove(entry: EntryId)
      requires Valid()
      modifies this
      ensures Valid() && scores == old(scores) - {entry}
    {
      RemoveRepresents(zset, scores, entry);
      zset := Without(zset, entry);
      scores := scores - {entry};
    }

    method Size() returns (n: nat)
      requires Valid()
      ensures n == |scores|
    {
      SizeIsCount(zset, scores);
      n := |zset|;
    }

    method Range(from: nat, to: nat) returns (out: seq<RankedRow>)
      requires Valid()
      ensures out == RowsBetween(zset, from, to)
    {
      var raw := ZRevRange(zset, from, to);
      out := [];
      for i := 0 to |raw|
        invariant |out| == i
        invariant forall k :: 0 <= k < i ==> out[k] == Rows(zset)[from + k]
      {
        out := out + [RankedRow(raw[i].entry, FromRedisScore(raw[i].score), from + 1 + |out|)];
      }
    }

    /** The row of an entry: its rank is one more than the members above it. */
    method GetRank(entry: EntryId) returns (row: Option<RankedRow>)
      requires Valid()
      ensures row.Some? <==> entry in scores
      ensures row.Some? ==> row.value in Rows(zset) && row.value.entry == entry
      ensures row.Some? ==>
                && row.value.rank == 1 + |MembersAbove(scores, entry)|
                && row.value.points == FromRedisScore(scores[entry])
    {
      var index := ZRevRank(zset, entry);
      if index.None? {
        return None;
      }
      var m := zset[index.value];
      row := Some(RankedRow(entry, FromRedisScore(m.score), index.value + 1));
      RankCountsAbove(zset, scores, index.value);
      assert Rows(zset)[index.value] == row.value;
    }

    method GetRanks(entryIds: seq<EntryId>) returns (out: map<EntryId, RankedRow>)
      requires Valid()
      ensures forall e :: e in out <==> e in entryIds && e in scores
      ensures forall e :: e in out ==> out[e] in Rows(zset) && out[e].entry == e
    {
      out := map[];
      for i := 0 to |entryIds|
        invariant forall e :: e in out <==> e in entryIds[..i] && e in scores
        invariant forall e :: e in out ==> out[e] in Rows(zset) && out[e].entry == e
      {
        var row := GetRank(entryIds[i]);
        if row.Some? {
          out := out[entryIds[i] := row.value];
        }
      }
      assert entryIds[..|entryIds|] == entryIds;
    }

    /** The best-ranked entry of a user, with the prize projected for its rank. */
    method GetUserRank(entries: seq<EntryId>, snapshot: PrizeSnapshot)
      returns (best: Option<RankedRow>, projectedWinning: nat)
      requires Valid()
      ensures best.None? <==> forall e :: e in entries ==> e !in scores
      ensures best.Some? ==> best.value in Rows(zset) && best.value.entry in entries
      ensures best.Some? ==> forall row :: row in Rows(zset) && row.entry in entries ==> best.value.rank <= row.rank
      ensures best.Some? ==> projectedWinning == PrizeForRank(best.value.rank, snapshot)
    {
      projectedWinning := 0;
      var ranks := GetRanks(entries);
      best := BestOf(entries, ranks);
      forall row | row in Rows(zset) && row.entry in entries ensures row.entry in ranks && row == ranks[row.entry] {
        OneRowPerEntry(zset, scores, row);
        OneRowEach(zset, scores, row, ranks[row.entry]);
      }
      if best.Some? {
        projectedWinning := PrizeForRank(best.value.rank, snapshot);
      }
    }
  }

  /** The page when Redis is not available: the stored entries sorted and sliced. */
  method LoadContestPageFromMongo(entries: seq<Seed>, page: nat, pageSize: nat)
    returns (rows: seq<RankedRow>, totalEntries: nat, topScore: real)
    requires page >= 1 && pageSize >= 1
    ensures rows == FallbackPage(entries, page, pageSize) && totalEntries == |entries| && topScore == TopOf(FallbackRows(entries))
  {
    hide Sort;
    var ranked := Fallback(entries);
    SortContents(EarlierInFallback, entries);
    PageBounds(page, pageSize);
    var from := (page - 1) * pageSize;
    var end := if from + pageSize <= |ranked| then from + pageSize else |ranked|;
    totalEntries := |ranked|;
    topScore := if |ranked| == 0 then 0.0 else ranked[0].points;
    if from >= |ranked| {
      return [], totalEntries, topScore;
    }
    var slice := ranked[from..end];
    rows := seq(|slice|, i requires 0 <= i < |slice| => RankedRow(slice[i].entry, slice[i].points, from + i + 1));
    forall i | 0 <= i < |rows| ensures rows[i] == FallbackRows(entries)[from + i] {
    }
  }

  /** The first entry with the best rank. */
  method BestOf(entries: seq<EntryId>, ranks: map<EntryId, RankedRow>) returns (best: Option<RankedRow>)
    ensures best.None? <==> forall e :: e in entries ==> e !in ranks
    ensures best.Some? ==> exists e :: e in entries && e in ranks && best.value == ranks[e]
    ensures best.Some? ==> forall e :: e in entries && e in ranks ==> best.value.rank <= ranks[e].rank
  {
    best := None;
    for i := 0 to |entries|
      invariant best.None? <==> forall k :: 0 <= k < i ==> entries[k] !in ranks
      invariant best.Some? ==> exists k :: 0 <= k < i && entries[k] in ranks && best.value == ranks[entries[k]]
      invariant best.Some? ==> forall k :: 0 <= k < i && entries[k] in ranks ==> best.value.rank <= ranks[entries[k]].rank
    {
      if entries[i] in ranks && (best.None? || ranks[entries[i]].rank < best.value.rank) {
        best := Some(ranks[entries[i]]);
      }
    }
  }

  function TopOf(rows: seq<RankedRow>): real
  {
    if rows == [] then 0.0 else rows[0].points
  }

  lemma PageBounds(page: nat, pageSize: nat)
    requires page >= 1
    ensures (page - 1) * pageSize >= 0
  {
  }

  function Page(z: seq<Member>, page: nat, pageSize: nat): seq<RankedRow>
    requires page >= 1 && pageSize >= 1
  {
    PageBounds(page, pageSize);
    RowsBetween(z, (page - 1) * pageSize, (page - 1) * pageSize + pageSize - 1)
  }

  // ---- What the rows say ---------------------------------------------------------------------

  function MembersAbove(scores: map<EntryId, int>, e: EntryId): set<EntryId>
    requires e in scores
  {
    set j | j in scores && Above(Member(j, scores[j]), Member(e, scores[e]))
  }

  /** The ids of the first `n` members. */
  function FirstIds(z: seq<Member>, n: nat): set<EntryId>
    requires n <= |z|
  {
    set k | 0 <= k < n :: z[k].entry
  }

  lemma {:induction false} FirstIdsCount(z: seq<Member>, n: nat)
    requires n <= |z| && DistinctKeys(MemberId, z)
    ensures |FirstIds(z, n)| == n
  {
    if n > 0 {
      FirstIdsCount(z, n - 1);
      assert FirstIds(z, n) == FirstIds(z, n - 1) + {z[n - 1].entry};
      assert z[n - 1].entry !in FirstIds(z, n - 1) by {
        assert forall k :: 0 <= k < n - 1 ==> MemberId(z[k]) != MemberId(z[n - 1]);
      }
    }
  }

  lemma SizeIsCount(z: seq<Member>, scores: map<EntryId, int>)
    requires Represents(z, scores)
    ensures |z| == |scores|
  {
    FirstIdsCount(z, |z|);
    assert forall k :: 0 <= k < |z| ==> z[k] in z;
    forall e | e in scores ensures e in FirstIds(z, |z|) {
      var k :| 0 <= k < |z| && z[k] == Member(e, scores[e]);
    }
    assert FirstIds(z, |z|) == scores.Keys;
  }

  /** The position of a member is the number of members above it. */
  lemma RankCountsAbove(z: seq<Member>, scores: map<EntryId, int>, k: nat)
    requires Represents(z, scores) && k < |z|
    ensures z[k].entry in scores && scores[z[k].entry] == z[k].score
    ensures |MembersAbove(scores, z[k].entry)| == k
  {
    assert forall h :: 0 <= h < |z| ==> z[h] in z;
    FirstIdsCount(z, k);
    forall j ensures j in FirstIds(z, k) <==> j in MembersAbove(scores, z[k].entry) {
      if j in scores {
        var m := Member(j, scores[j]);
        var i :| 0 <= i < |z| && z[i] == m;
        if i < k {
          assert !Above(z[k], z[i]) && MemberId(z[i]) != MemberId(z[k]);
        } else if i > k {
          assert !Above(z[i], z[k]);
          assert j !in FirstIds(z, k) by {
            assert forall h :: 0 <= h < k ==> MemberId(z[h]) != MemberId(z[i]);
          }
        } else {
          assert forall h :: 0 <= h < k ==> MemberId(z[h]) != MemberId(z[k]);
        }
      }
    }
    assert FirstIds(z, k) == MembersAbove(scores, z[k].entry);
  }

  lemma OneRowPerEntry(z: seq<Member>, scores: map<EntryId, int>, row: RankedRow)
    requires Represents(z, scores) && row in Rows(z)
    ensures row.entry in scores && row.points == FromRedisScore(scores[row.entry])
    ensures 1 <= row.rank <= |z| && row == Rows(z)[row.rank - 1]
  {
    var k :| 0 <= k < |z| && Rows(z)[k] == row;
    assert z[k] in z;
  }

  lemma OneRowEach(z: seq<Member>, scores: map<EntryId, int>, a: RankedRow, b: RankedRow)
    requires Represents(z, scores) && a in Rows(z) && b in Rows(z) && a.entry == b.entry
    ensures a == b
  {
    var i :| 0 <= i < |z| && Rows(z)[i] == a;
    var j :| 0 <= j < |z| && Rows(z)[j] == b;
    assert MemberId(z[i]) == MemberId(z[j]);
    assert !(i < j) && !(j < i);
  }

  /** The pages one after another. */
  function Pages(z: seq<Member>, n: nat, pageSize: nat): seq<RankedRow>
    requires pageSize >= 1
  {
    if n == 0 then [] else Pages(z, n - 1, pageSize) + Page(z, n, pageSize)
  }

  lemma {:induction false} PagesArePrefix(z: seq<Member>, n: nat, pageSize: nat)
    requires pageSize >= 1
    ensures n * pageSize >= 0
    ensures Pages(z, n, pageSize) == Rows(z)[..if n * pageSize <= |z| then n * pageSize else |z|]
  {
    if n > 0 {
      PagesArePrefix(z, n - 1, pageSize);
      assert n * pageSize == (n - 1) * pageSize + pageSize;
    }
  }

  /** The rows list every member once, best first. */
  lemma RowsListMembers(z: seq<Member>, scores: map<EntryId, int>)
    requires Represents(z, scores)
    ensures |Rows(z)| == |scores|
    ensures forall k :: 0 <= k < |scores| ==> Rows(z)[k].rank == k + 1
    ensures forall e :: e in scores ==> exists row :: row in Rows(z) && row.entry == e
  {
    SizeIsCount(z, scores);
    forall e | e in scores ensures exists row :: row in Rows(z) && row.entry == e {
      var k :| 0 <= k < |z| && z[k] == Member(e, scores[e]);
      assert Rows(z)[k] in Rows(z);
    }
  }

  lemma RowsDescend(z: seq<Member>, scores: map<EntryId, int>, i: nat, j: nat)
    requires Represents(z, scores) && i < j < |z|
    ensures Rows(z)[i].entry != Rows(z)[j].entry && Rows(z)[i].points >= Rows(z)[j].points
  {
    assert MemberId(z[i]) != MemberId(z[j]) && !Above(z[j], z[i]);
  }

  /** Enough pages list every member once, ranked 1, 2, 3 and so on without a gap. */
  lemma PagesListEveryMember(z: seq<Member>, scores: map<EntryId, int>, n: nat, pageSize: nat, pages: seq<RankedRow>)
    requires Represents(z, scores) && pageSize >= 1 && n * pageSize >= |scores|
    requires pages == Pages(z, n, pageSize)
    ensures |pages| == |scores|
    ensures forall k :: 0 <= k < |scores| ==> pages[k].rank == k + 1
    ensures forall e :: e in scores ==> exists row :: row in pages && row.entry == e
    ensures forall i, j :: 0 <= i < j < |scores| ==> pages[i].entry != pages[j].entry && pages[i].points >= pages[j].points
  {
    hide Rows, Pages;
    SizeIsCount(z, scores);
    PagesArePrefix(z, n, pageSize);
    RowsListMembers(z, scores);
    assert pages == Rows(z);
    forall i, j | 0 <= i < j < |scores| ensures pages[i].entry != pages[j].entry && pages[i].points >= pages[j].points {
      RowsDescend(z, scores, i, j);
    }
  }

  /** The best score of a page is that of the board exactly when the page begins with a score tied for the best. */
  lemma PageTopIsBoardTopIff(z: seq<Member>, page: nat, pageSize: nat)
    requires page >= 1 && pageSize >= 1
    ensures 0 <= (page - 1) * pageSize
    ensures Page(z, page, pageSize) == [] <==> (page - 1) * pageSize >= |z|
    ensures Page(z, page, pageSize) == [] ==> TopOf(Page(z, page, pageSize)) == 0.0
    ensures Page(z, page, pageSize) == [] ==> (TopOf(Page(z, page, pageSize)) == TopOf(Rows(z)) <==> z == [] || z[0].score == 0)
    ensures Page(z, page, pageSize) != [] ==>
              (TopOf(Page(z, page, pageSize)) == TopOf(Rows(z)) <==> z[(page - 1) * pageSize].score == z[0].score)
  {
    PageBounds(page, pageSize);
    var from := (page - 1) * pageSize;
    if from < |z| {
      assert Page(z, page, pageSize)[0] == Rows(z)[from];
      ScoresDiffer(z[from].score, z[0].score);
    } else if z != [] {
      ScoresDiffer(0, z[0].score);
    }
  }

  lemma ScoresDiffer(a: int, b: int)
    ensures FromRedisScore(a) == FromRedisScore(b) <==> a == b
  {
    hide FromRedisScore;
    ScoreInHundredths(a);
    ScoreInHundredths(b);
  }

  lemma ScoreInHundredths(score: int)
    ensures FromRedisScore(score) == score as real / 100.0
  {
    assert Round(score as real) == score;
  }

  /** Two entries with 5 and 3 points: the second page of size one shows a top score of 3. */
  lemma SecondPageHasItsOwnTop() returns (z: seq<Member>, scores: map<EntryId, int>)
    ensures Represents(z, scores) && |z| == 2
    ensures TopOf(Page(z, 2, 1)) == 3.0 && TopOf(Page(z, 1, 1)) == TopOf(Rows(z)) == 5.0
  {
    z, scores := [Member(2, 500), Member(1, 300)], map[2 := 500, 1 := 300];
    assert Rows(z) == [RankedRow(2, 5.0, 1), RankedRow(1, 3.0, 2)] by {
      assert FromRedisScore(500) == 5.0 && FromRedisScore(300) == 3.0;
    }
    assert Page(z, 2, 1) == [RankedRow(1, 3.0, 2)];
    assert Page(z, 1, 1) == [RankedRow(2, 5.0, 1)];
  }

  /** What is read depends only on the scores, not on the operations that put them there. */
  lemma RowsAreDetermined(y: seq<Member>, z: seq<Member>, scores: map<EntryId, int>)
    requires Represents(y, scores) && Represents(z, scores)
    ensures y == z
  {
    forall m ensures multiset(y)[m] == multiset(z)[m] {
      OncePerKey(MemberId, y, m);
      OncePerKey(MemberId, z, m);
      assert m in y <==> m in multiset(y);
      assert m in z <==> m in multiset(z);
    }
    assert multiset(y) == multiset(z);
    forall a, b | a in y && b in y && a != b ensures Above(a, b) || Above(b, a) {
    }
    SortedUnique(Above, y, z);
  }

  /** Of two members with one score, the one with the larger id is ranked better. */
  lemma NewerEntryWinsTies(z: seq<Member>, scores: map<EntryId, int>, i: nat, j: nat)
    requires Represents(z, scores) && i < |z| && j < |z|
    requires z[i].score == z[j].score && z[i].entry > z[j].entry
    ensures i < j
  {
    assert j < i ==> !Above(z[i], z[j]);
  }

  // ---- The fallback --------------------------------------------------------------------------

  predicate EarlierInFallback(a: Seed, b: Seed)
  {
    a.points > b.points || (a.points == b.points && a.entry < b.entry)
  }

  function Fallback(entries: seq<Seed>): seq<Seed>
  {
    Sort(EarlierInFallback, entries)
  }

  function FallbackRow(ranked: seq<Seed>, k: nat): RankedRow
    requires k < |ranked|
  {
    RankedRow(ranked[k].entry, ranked[k].points, k + 1)
  }

  function FallbackRows(entries: seq<Seed>): seq<RankedRow>
  {
    seq(|Fallback(entries)|, k requires 0 <= k < |Fallback(entries)| => FallbackRow(Fallback(entries), k))
  }

  function FallbackPage(entries: seq<Seed>, page: nat, pageSize: nat): seq<RankedRow>
    requires page >= 1 && pageSize >= 1
  {
    PageBounds(page, pageSize);
    var rows, from := FallbackRows(entries), (page - 1) * pageSize;
    if from >= |rows| then [] else rows[from..if from + pageSize <= |rows| then from + pageSize else |rows|]
  }
}
