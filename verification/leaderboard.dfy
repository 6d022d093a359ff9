/**
 * The leaderboard: users sorted by points, highest first, by a stable sort;
 * ranks 1..n; per-user contribution counts; the podium split and the totals.
 */
module Leaderboard {
  import opened Club
  import opened Seqs

  /** Points never increase along the sequence. */
  predicate Descending(s: seq<User>)
  {
    forall i, j :: 0 <= i < j < |s| ==> s[i].points >= s[j].points
  }

  /**
   * Inserts `x` into a list, before the first user with no more points than
   * `x`: ahead of its equals, which is where a stable sort puts an element
   * that came earlier in the input.
   */
  function Insert(x: User, s: seq<User>): (r: seq<User>)
    ensures |r| == |s| + 1
    ensures multiset(r) == multiset(s) + multiset{x}
  {
    if |s| == 0 then [x]
    else if s[0].points <= x.points then [x] + s
    else
      assert s == [s[0]] + s[1..];
      [s[0]] + Insert(x, s[1..])
  }

  /** Inserting into a list that is highest-first keeps it highest-first. */
  lemma {:induction false} InsertKeepsDescending(x: User, s: seq<User>)
    requires Descending(s)
    ensures Descending(Insert(x, s))
  {
    if |s| > 0 && s[0].points > x.points {
      var rest := Insert(x, s[1..]);
      InsertKeepsDescending(x, s[1..]);
      forall k | 0 <= k < |rest|
        ensures rest[k].points <= s[0].points
      {
        assert rest[k] in multiset(rest);
        if rest[k] != x {
          assert rest[k] in s[1..];
        }
      }
      assert Insert(x, s) == [s[0]] + rest;
    }
  }

  /** The users holding exactly `p` points, in list order. */
  function WithPoints(s: seq<User>, p: int): (r: seq<User>)
    ensures forall u :: u in r <==> u in s && u.points == p
  {
    if |s| == 0 then []
    else (if s[0].points == p then [s[0]] else []) + WithPoints(s[1..], p)
  }

  lemma {:induction false} InsertKeepsEqualsInOrder(x: User, s: seq<User>, p: int)
    ensures WithPoints(Insert(x, s), p) == (if x.points == p then [x] else []) + WithPoints(s, p)
  {
    if |s| == 0 {
      assert Insert(x, s) == [x];
      assert WithPoints([x], p) == (if x.points == p then [x] else []) + WithPoints([], p);
    } else if s[0].points <= x.points {
      var r := [x] + s;
      assert Insert(x, s) == r;
      assert r[0] == x && r[1..] == s;
    } else {
      var rest := Insert(x, s[1..]);
      var r := [s[0]] + rest;
      assert Insert(x, s) == r;
      assert r[0] == s[0] && r[1..] == rest;
      var head := if s[0].points == p then [s[0]] else [];
      calc {
        WithPoints(r, p);
        head + WithPoints(rest, p);
        { InsertKeepsEqualsInOrder(x, s[1..], p); }
        head + ((if x.points == p then [x] else []) + WithPoints(s[1..], p));
        { assert x.points == p ==> head == []; }
        (if x.points == p then [x] else []) + (head + WithPoints(s[1..], p));
        (if x.points == p then [x] else []) + WithPoints(s, p);
      }
    }
  }

  /**
   * `totalPoints`: the sum of every user's points. With no negative balances
   * the total is never negative and no single user holds more than it.
   */
  function TotalPoints(users: seq<User>): (t: int)
    ensures |users| == 0 ==> t == 0
    ensures (forall i :: 0 <= i < |users| ==> users[i].points >= 0) ==>
      t >= 0 && forall i :: 0 <= i < |users| ==> users[i].points <= t
  {
    if |users| == 0 then 0 else users[0].points + TotalPoints(users[1..])
  }

  lemma {:induction false} InsertAddsPoints(x: User, s: seq<User>)
    ensures TotalPoints(Insert(x, s)) == x.points + TotalPoints(s)
  {
    if |s| > 0 && s[0].points > x.points {
      var rest := Insert(x, s[1..]);
      assert ([s[0]] + rest)[1..] == rest;
      InsertAddsPoints(x, s[1..]);
    } else if |s| > 0 {
      assert ([x] + s)[1..] == s;
    }
  }

  /**
   * The leaderboard order of `sortedUsers`: highest points first, a
   * permutation of the input keeping the total, and stable: users with equal
   * points keep their input order.
   */
  function SortByPoints(users: seq<User>): (r: seq<User>)
    ensures |r| == |users|
    ensures multiset(r) == multiset(users)
    ensures Descending(r)
    ensures forall p :: WithPoints(r, p) == WithPoints(users, p)
    ensures TotalPoints(r) == TotalPoints(users)
  {
    if |users| == 0 then []
    else
      var x := users[0];
      var sortedTail := SortByPoints(users[1..]);
      assert users == [x] + users[1..];
      InsertKeepsDescending(x, sortedTail);
      InsertAddsPoints(x, sortedTail);
      forall p
        ensures WithPoints(Insert(x, sortedTail), p) == WithPoints(users, p)
      {
        InsertKeepsEqualsInOrder(x, sortedTail, p);
      }
      Insert(x, sortedTail)
  }

  /** `getUserContributionCount`: how many contributions credit the given user. */
  function ContributionCount(contributions: seq<Contribution>, userId: UserId): (n: nat)
    ensures n <= |contributions|
    ensures n == 0 <==> forall i :: 0 <= i < |contributions| ==> contributions[i].data.memberId != userId
    ensures n == |Filter(contributions, (c: Contribution) => c.data.memberId == userId)|
  {
    CountIsFilterLength(contributions, (c: Contribution) => c.data.memberId == userId);
    CountWhere(contributions, (c: Contribution) => c.data.memberId == userId)
  }

  /** A leaderboard row: the user, its 1-based rank and its contribution count. */
  datatype RankedUser = RankedUser(user: User, rank: nat, contributionCount: nat)

  /** The users of a list of rows, in order. */
  function UsersOf(rows: seq<RankedUser>): (r: seq<User>)
    ensures |r| == |rows|
    ensures forall i :: 0 <= i < |rows| ==> r[i] == rows[i].user
  {
    seq(|rows|, i requires 0 <= i < |rows| => rows[i].user)
  }

  /** `sortedUsers`: the users highest first, ranked 1..n, each with its contribution count. */
  function Rankings(users: seq<User>, contributions: seq<Contribution>): (rows: seq<RankedUser>)
    ensures |rows| == |users|
    ensures multiset(UsersOf(rows)) == multiset(users)
    ensures forall i :: 0 <= i < |rows| ==> rows[i].rank == i + 1
    ensures forall i, j :: 0 <= i < j < |rows| ==> rows[i].user.points >= rows[j].user.points
    ensures forall p :: WithPoints(UsersOf(rows), p) == WithPoints(users, p)
    ensures forall i :: 0 <= i < |rows| ==>
      rows[i].contributionCount == ContributionCount(contributions, rows[i].user.id)
  {
    var sorted := SortByPoints(users);
    var rows := seq(|sorted|, i requires 0 <= i < |sorted| =>
      RankedUser(sorted[i], i + 1, ContributionCount(contributions, sorted[i].id)));
    assert UsersOf(rows) == sorted;
    rows
  }

  /** `topThree`: the first min(3, n) rows. */
  function TopThree(users: seq<User>, contributions: seq<Contribution>): (top: seq<RankedUser>)
    ensures |top| == if |users| < 3 then |users| else 3
    ensures top <= Rankings(users, contributions)
  {
    var rows := Rankings(users, contributions);
    rows[..if |rows| < 3 then |rows| else 3]
  }

  /** `restOfUsers`: the rows after the first three. */
  function RestOfUsers(users: seq<User>, contributions: seq<Contribution>): (rest: seq<RankedUser>)
    ensures |rest| == if |users| < 3 then 0 else |users| - 3
  {
    var rows := Rankings(users, contributions);
    rows[if |rows| < 3 then |rows| else 3..]
  }

  /** The podium and the rest make up the leaderboard, and nobody below the podium has more points than anyone on it. */
  lemma PodiumSplit(users: seq<User>, contributions: seq<Contribution>)
    ensures TopThree(users, contributions) + RestOfUsers(users, contributions) == Rankings(users, contributions)
    ensures var top := TopThree(users, contributions);
      var rest := RestOfUsers(users, contributions);
      forall i, j :: 0 <= i < |top| && 0 <= j < |rest| ==> top[i].user.points >= rest[j].user.points
  {
    var rows := Rankings(users, contributions);
    var n := if |rows| < 3 then |rows| else 3;
    assert rows[..n] + rows[n..] == rows;
    forall i, j | 0 <= i < n && 0 <= j < |rows| - n
      ensures rows[..n][i].user.points >= rows[n..][j].user.points
    {
      assert rows[n..][j] == rows[n + j];
    }
  }

  /** `highestPoints`: the first sorted user's points, or 0 with no users; no user has more. */
  function HighestPoints(users: seq<User>): (h: int)
    ensures |users| == 0 ==> h == 0
    ensures forall u :: u in users ==> u.points <= h
    ensures |users| > 0 ==> exists u :: u in users && u.points == h
  {
    var sorted := SortByPoints(users);
    if |sorted| == 0 then 0
    else
      assert sorted[0] in multiset(users);
      assert forall u :: u in users ==> u in multiset(sorted);
      sorted[0].points
  }
}
