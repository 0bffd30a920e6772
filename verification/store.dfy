/**
  The persistence layer as state transitions over keyed maps. Each SQL table
  is a map from its primary (or unique) key to the rest of the row. Each
  database function is a pure function from the old tables to the new ones,
  or, for a query, to what the query returns. `INSERT OR IGNORE` keeps the
  row already stored under a key. `INSERT OR REPLACE` overwrites it.
  Text keys are ordered the way SQLite's default collation orders them: by
  code point, lexicographically.
*/
module Store {
  import opened Series

  // ---------------------------------------------------------------------------
  // Text order
  // ---------------------------------------------------------------------------

  /** Strict lexicographic order on strings, by code point. */
  predicate Below(a: string, b: string) {
    if |a| == 0 then |b| > 0
    else |b| > 0 && (a[0] < b[0] || (a[0] == b[0] && Below(a[1..], b[1..])))
  }

  lemma {:induction false} BelowIrreflexive(a: string)
    ensures !Below(a, a)
  {
    if |a| > 0 {
      BelowIrreflexive(a[1..]);
    }
  }

  lemma {:induction false} BelowTransitive(a: string, b: string, c: string)
    requires Below(a, b) && Below(b, c)
    ensures Below(a, c)
  {
    if |a| > 0 && a[0] == b[0] && b[0] == c[0] {
      BelowTransitive(a[1..], b[1..], c[1..]);
    }
  }

  lemma {:induction false} BelowTotal(a: string, b: string)
    requires a != b
    ensures Below(a, b) || Below(b, a)
  {
    if |a| > 0 && |b| > 0 && a[0] == b[0] {
      BelowTotal(a[1..], b[1..]);
    }
  }

  /** Every element of `r` sorts strictly after the ones before it. */
  predicate Ascending(r: seq<string>) {
    forall i, j | 0 <= i < j < |r| :: Below(r[i], r[j])
  }

  /** Every element of `r` sorts strictly before the ones before it. */
  predicate Descending(r: seq<string>) {
    forall i, j | 0 <= i < j < |r| :: Below(r[j], r[i])
  }

  /** A finite non-empty set of strings has a largest element. */
  lemma {:induction false} LargestExists(s: set<string>)
    requires s != {}
    ensures exists m | m in s :: forall x | x in s :: x == m || Below(x, m)
    decreases |s|
  {
    var y :| y in s;
    var rest := s - {y};
    if rest == {} {
      assert s == {y};
    } else {
      LargestExists(rest);
      var m :| m in rest && forall x | x in rest :: x == m || Below(x, m);
      if Below(y, m) {
        assert forall x | x in s :: x == m || Below(x, m);
      } else {
        BelowTotal(y, m);
        forall x | x in s
          ensures x == y || Below(x, y)
        {
          if x != y && x != m {
            BelowTransitive(x, m, y);
          }
        }
      }
    }
  }

  /** The elements of a finite set of strings, in ascending order. */
  method SortAscending(s: set<string>) returns (r: seq<string>)
    ensures Ascending(r)
    ensures forall x :: x in r <==> x in s
  {
    var left := s;
    r := [];
    while left != {}
      invariant left <= s
      invariant forall x :: x in s <==> x in left || x in r
      invariant forall x | x in r :: x !in left
      invariant forall x, k | x in left && 0 <= k < |r| :: Below(x, r[k])
      invariant Ascending(r)
      decreases |left|
    {
      LargestExists(left);
      var m :| m in left && forall x | x in left :: x == m || Below(x, m);
      forall k | 0 <= k < |r|
        ensures Below(m, r[k])
      {
      }
      forall x, k | x in left - {m} && 0 <= k < |[m] + r|
        ensures Below(x, ([m] + r)[k])
      {
        if k == 0 {
        } else {
          assert ([m] + r)[k] == r[k - 1];
        }
      }
      r := [m] + r;
      left := left - {m};
    }
  }

  /** `xs` back to front. */
  function Reverse(xs: seq<string>): (r: seq<string>)
    ensures |r| == |xs| && forall k | 0 <= k < |xs| :: r[k] == xs[|xs| - 1 - k]
  {
    seq(|xs|, k requires 0 <= k < |xs| => xs[|xs| - 1 - k])
  }

  lemma ReverseAscending(xs: seq<string>)
    requires Ascending(xs)
    ensures Descending(Reverse(xs))
    ensures forall x :: x in Reverse(xs) <==> x in xs
  {
    var r := Reverse(xs);
    forall x | x in xs
      ensures x in r
    {
      var k :| 0 <= k < |xs| && xs[k] == x;
      assert r[|xs| - 1 - k] == x;
    }
  }

  // ---------------------------------------------------------------------------
  // Users
  // ---------------------------------------------------------------------------

  /** A row of `users`; the password is stored as its hash. */
  datatype User = User(password: string, email: string, role: string)

  /** `users`, keyed by its primary key, the user name. */
  type Users = map<string, User>

  const Admin: string := "admin"
  const Member: string := "user"

  datatype SignUpResult = SignUpResult(ok: bool, users: Users)

  /**
    `sign_up`: the first user of an empty table is the administrator, every
    later one an ordinary user; a name already taken violates the primary key,
    so the call answers false and stores nothing. `hash` is the password hash.
  */
  function SignUp(users: Users, username: string, password: string, email: string, hash: string -> string)
    : (r: SignUpResult)
    ensures r.ok <==> username !in users
    ensures !r.ok ==> r.users == users
    ensures r.ok ==> r.users.Keys == users.Keys + {username}
    ensures forall u | u in users :: u in r.users && r.users[u] == users[u]
  {
    var role := if |users| == 0 then Admin else Member;
    if username in users then SignUpResult(false, users)
    else SignUpResult(true, users[username := User(hash(password), email, role)])
  }

  /** `check_login`: the name exists and the hash of the password matches. */
  predicate CheckLogin(users: Users, username: string, password: string, hash: string -> string) {
    username in users && users[username].password == hash(password)
  }

  /** `get_user_role`: an unknown name is an ordinary user. */
  function UserRole(users: Users, username: string): (r: string)
    ensures username !in users ==> r == Member
    ensures username in users ==> r == users[username].role
  {
    if username in users then users[username].role else Member
  }

  /** `verify_user_email`. */
  predicate VerifyEmail(users: Users, username: string, email: string) {
    username in users && users[username].email == email
  }

  /** `update_password`: changes only the named user's hash, if the user exists. */
  function UpdatePassword(users: Users, username: string, password: string, hash: string -> string)
    : (r: Users)
    ensures r.Keys == users.Keys
    ensures forall u | u in users && u != username :: r[u] == users[u]
    ensures username in users ==>
      r[username] == users[username].(password := hash(password))
  {
    if username in users then users[username := users[username].(password := hash(password))]
    else users
  }

  /** `get_all_users`: name, email and role of every user (SQL gives no order). */
  function AllUsers(users: Users): (r: set<(string, string, string)>)
    ensures forall u | u in users :: (u, users[u].email, users[u].role) in r
    ensures forall t | t in r :: t.0 in users && t == (t.0, users[t.0].email, users[t.0].role)
  {
    set u | u in users :: (u, users[u].email, users[u].role)
  }

  /** No two distinct users are administrators. */
  predicate AtMostOneAdmin(users: Users) {
    forall a, b | a in users && b in users && users[a].role == Admin && users[b].role == Admin :: a == b
  }

  /** Some user is an administrator. */
  predicate HasAdmin(users: Users) {
    exists u | u in users :: users[u].role == Admin
  }

  /** A successful sign-up creates an administrator exactly when the table was empty. */
  lemma FirstUserIsAdmin(users: Users, username: string, password: string, email: string, hash: string -> string)
    requires SignUp(users, username, password, email, hash).ok
    ensures UserRole(SignUp(users, username, password, email, hash).users, username) == Admin
      <==> |users| == 0
  {
  }

  /** Sign-ups keep the administrator unique, and a table filled by sign-ups
      alone has one. */
  lemma SignUpKeepsAdmin(users: Users, username: string, password: string, email: string, hash: string -> string)
    requires AtMostOneAdmin(users)
    requires |users| > 0 ==> HasAdmin(users)
    ensures var r := SignUp(users, username, password, email, hash).users;
      AtMostOneAdmin(r) && (|r| > 0 ==> HasAdmin(r))
  {
    var r := SignUp(users, username, password, email, hash).users;
    if username !in users {
      assert username in r;
      if |users| == 0 {
        assert r.Keys == {username};
      } else {
        var a :| a in users && users[a].role == Admin;
        assert a in r && r[a].role == Admin;
      }
    }
  }

  /** After a successful sign-up the password logs in; with an injective hash,
      no other password does. */
  lemma LoginAfterSignUp(users: Users, username: string, password: string, email: string,
                         hash: string -> string, other: string)
    requires SignUp(users, username, password, email, hash).ok
    requires forall a, b :: hash(a) == hash(b) ==> a == b
    ensures CheckLogin(SignUp(users, username, password, email, hash).users, username, password, hash)
    ensures CheckLogin(SignUp(users, username, password, email, hash).users, username, other, hash)
      <==> other == password
  {
  }

  /** A new password logs in exactly for an existing user, and the old one
      no longer does unless it is the same. */
  lemma LoginAfterUpdate(users: Users, username: string, password: string, hash: string -> string,
                         other: string)
    requires forall a, b :: hash(a) == hash(b) ==> a == b
    ensures CheckLogin(UpdatePassword(users, username, password, hash), username, password, hash)
      <==> username in users
    ensures username in users ==>
      (CheckLogin(UpdatePassword(users, username, password, hash), username, other, hash)
       <==> other == password)
  {
  }

  /** The password-reset check: after a sign-up the registered email, and only
      it, verifies; a password change never alters whose email verifies. */
  lemma EmailCheck(users: Users, username: string, password: string, email: string,
                   hash: string -> string, u: string, e: string)
    requires SignUp(users, username, password, email, hash).ok
    ensures VerifyEmail(SignUp(users, username, password, email, hash).users, username, e) <==> e == email
    ensures VerifyEmail(UpdatePassword(users, username, password, hash), u, e) <==> VerifyEmail(users, u, e)
  {
  }

  /** A successful sign-up lists the new user with the given email and the
      role the sign-up chose, administrator exactly on an empty table; every
      earlier listing stays. */
  lemma SignUpListed(users: Users, username: string, password: string, email: string, hash: string -> string)
    requires SignUp(users, username, password, email, hash).ok
    ensures var listed := AllUsers(SignUp(users, username, password, email, hash).users);
      listed == AllUsers(users) + {(username, email, if |users| == 0 then Admin else Member)}
    ensures (username, email, Admin) in AllUsers(SignUp(users, username, password, email, hash).users)
      <==> |users| == 0
  {
    var r := SignUp(users, username, password, email, hash).users;
    var t := (username, email, if |users| == 0 then Admin else Member);
    forall x | x in AllUsers(r)
      ensures x in AllUsers(users) + {t}
    {
      if x.0 != username {
        assert x == (x.0, users[x.0].email, users[x.0].role);
      }
    }
    forall x | x in AllUsers(users) + {t}
      ensures x in AllUsers(r)
    {
      if x != t {
        assert x.0 in users && x == (x.0, r[x.0].email, r[x.0].role);
      }
    }
    assert (username, email, Admin) in AllUsers(r) <==> r[username].role == Admin;
  }

  // ---------------------------------------------------------------------------
  // Favorites
  // ---------------------------------------------------------------------------

  /** A row of `favorites` beyond its key (user name, code). */
  datatype Favorite = Favorite(addedDate: string, initialPrice: real, strategies: string, name: string)

  type Favorites = map<(string, string), Favorite>

  /** `add_favorite`: insert or ignore under (user name, code); `today` is
      the caller's date. */
  function AddFavorite(favs: Favorites, username: string, code: string, name: string, price: real,
                       strategies: string, today: string): (r: Favorites)
    ensures r.Keys == favs.Keys + {(username, code)}
    ensures forall k | k in favs :: r[k] == favs[k]
    ensures (username, code) !in favs ==>
      r[(username, code)] == Favorite(today, price, strategies, name)
  {
    if (username, code) in favs then favs
    else favs[(username, code) := Favorite(today, price, strategies, name)]
  }

  /** `remove_favorite`: deletes that one pair. */
  function RemoveFavorite(favs: Favorites, username: string, code: string): (r: Favorites)
    ensures r.Keys == favs.Keys - {(username, code)}
    ensures forall k | k in r :: r[k] == favs[k]
  {
    favs - {(username, code)}
  }

  /** `update_favorite_price`: changes the price of that pair, if present. */
  function UpdateFavoritePrice(favs: Favorites, username: string, code: string, price: real): (r: Favorites)
    ensures r.Keys == favs.Keys
    ensures forall k | k in favs && k != (username, code) :: r[k] == favs[k]
    ensures (username, code) in favs ==>
      r[(username, code)] == favs[(username, code)].(initialPrice := price)
  {
    var k := (username, code);
    if k in favs then favs[k := favs[k].(initialPrice := price)] else favs
  }

  /** `update_favorite_date`: changes the date of that pair, if present. */
  function UpdateFavoriteDate(favs: Favorites, username: string, code: string, date: string): (r: Favorites)
    ensures r.Keys == favs.Keys
    ensures forall k | k in favs && k != (username, code) :: r[k] == favs[k]
    ensures (username, code) in favs ==>
      r[(username, code)] == favs[(username, code)].(addedDate := date)
  {
    var k := (username, code);
    if k in favs then favs[k := favs[k].(addedDate := date)] else favs
  }

  /** `get_favorites`: the user's codes with their rows (SQL gives no order). */
  function FavoritesOf(favs: Favorites, username: string): (r: set<(string, Favorite)>)
    ensures forall c :: (username, c) in favs ==> (c, favs[(username, c)]) in r
    ensures forall p | p in r :: (username, p.0) in favs && favs[(username, p.0)] == p.1
  {
    set k | k in favs && k.0 == username :: (k.1, favs[k])
  }

  /** Adding a pair twice is adding it once: the first row stays. */
  lemma AddFavoriteIdempotent(favs: Favorites, username: string, code: string,
                              n1: string, p1: real, s1: string, d1: string,
                              n2: string, p2: real, s2: string, d2: string)
    ensures AddFavorite(AddFavorite(favs, username, code, n1, p1, s1, d1), username, code, n2, p2, s2, d2)
      == AddFavorite(favs, username, code, n1, p1, s1, d1)
  {
  }

  /** Removing a pair that was just added to a table without it restores the table. */
  lemma RemoveUndoesAdd(favs: Favorites, username: string, code: string, name: string, price: real,
                        strategies: string, today: string)
    requires (username, code) !in favs
    ensures RemoveFavorite(AddFavorite(favs, username, code, name, price, strategies, today), username, code)
      == favs
  {
  }

  /** After `add_favorite` the user's list holds the code, with the given row
      when the pair was new and the first row otherwise; other users' lists
      are unchanged. */
  lemma FavoritesAfterAdd(favs: Favorites, username: string, code: string, name: string, price: real,
                          strategies: string, today: string, other: string)
    ensures var listed := FavoritesOf(AddFavorite(favs, username, code, name, price, strategies, today), username);
      listed == FavoritesOf(favs, username)
        + {(code, if (username, code) in favs then favs[(username, code)]
                  else Favorite(today, price, strategies, name))}
    ensures other != username ==>
      FavoritesOf(AddFavorite(favs, username, code, name, price, strategies, today), other)
        == FavoritesOf(favs, other)
  {
    var r := AddFavorite(favs, username, code, name, price, strategies, today);
    var row := if (username, code) in favs then favs[(username, code)] else Favorite(today, price, strategies, name);
    forall x | x in FavoritesOf(r, username)
      ensures x in FavoritesOf(favs, username) + {(code, row)}
    {
      if x.0 != code {
        assert (username, x.0) in favs;
      }
    }
    forall x | x in FavoritesOf(favs, username) + {(code, row)}
      ensures x in FavoritesOf(r, username)
    {
      assert (username, x.0) in r;
    }
    if other != username {
      forall x | x in FavoritesOf(r, other)
        ensures x in FavoritesOf(favs, other)
      {
        assert (other, x.0) in favs;
      }
      forall x | x in FavoritesOf(favs, other)
        ensures x in FavoritesOf(r, other)
      {
        assert (other, x.0) in r;
      }
    }
  }

  /** After `remove_favorite` the user's list is the old one without the
      code; other users' lists are unchanged. */
  lemma FavoritesAfterRemove(favs: Favorites, username: string, code: string, other: string)
    ensures FavoritesOf(RemoveFavorite(favs, username, code), username)
      == set x | x in FavoritesOf(favs, username) && x.0 != code
    ensures other != username ==>
      FavoritesOf(RemoveFavorite(favs, username, code), other) == FavoritesOf(favs, other)
  {
    var r := RemoveFavorite(favs, username, code);
    forall x | x in FavoritesOf(favs, username) && x.0 != code
      ensures x in FavoritesOf(r, username)
    {
      assert (username, x.0) in r;
    }
    if other != username {
      forall x | x in FavoritesOf(favs, other)
        ensures x in FavoritesOf(r, other)
      {
        assert (other, x.0) in r;
      }
    }
  }

  // ---------------------------------------------------------------------------
  // Scan history and strategy statistics
  // ---------------------------------------------------------------------------

  /** A row of `scan_history` beyond its unique key (date, strategy, code). */
  datatype Sighting = Sighting(name: string, entryPrice: real, market: string)

  type History = map<(string, string, string), Sighting>

  /** `save_scan_result`: insert or ignore under (date, strategy, code). */
  function SaveScanResult(h: History, date: string, strategy: string, code: string, name: string,
                          price: real, market: string): (r: History)
    ensures r.Keys == h.Keys + {(date, strategy, code)}
    ensures forall k | k in h :: r[k] == h[k]
    ensures (date, strategy, code) !in h ==> r[(date, strategy, code)] == Sighting(name, price, market)
  {
    var k := (date, strategy, code);
    if k in h then h else h[k := Sighting(name, price, market)]
  }

  /** Saving the same key again changes nothing: the first row's name, price
      and market stay. */
  lemma SaveScanResultIdempotent(h: History, date: string, strategy: string, code: string,
                                 n1: string, p1: real, m1: string, n2: string, p2: real, m2: string)
    ensures var once := SaveScanResult(h, date, strategy, code, n1, p1, m1);
      SaveScanResult(once, date, strategy, code, n2, p2, m2) == once
  {
  }

  /** The dates that have history. */
  function DatesOf(h: History): (r: set<string>)
    ensures forall k | k in h :: k.0 in r
    ensures forall d | d in r :: exists k | k in h :: k.0 == d
  {
    set k | k in h :: k.0
  }

  /** `get_scan_history_dates`: each date with history once, newest first. */
  method ScanHistoryDates(h: History) returns (r: seq<string>)
    ensures Descending(r)
    ensures forall d :: d in r <==> d in DatesOf(h)
  {
    var up := SortAscending(DatesOf(h));
    ReverseAscending(up);
    r := Reverse(up);
  }

  /** A strictly descending list holds no date twice. */
  lemma DescendingDistinct(r: seq<string>)
    requires Descending(r)
    ensures forall i, j | 0 <= i < j < |r| :: r[i] != r[j]
  {
    forall i, j | 0 <= i < j < |r|
      ensures r[i] != r[j]
    {
      BelowIrreflexive(r[i]);
    }
  }

  /** `get_history_by_date`: strategy, code, name, price and market of each
      row of that date (SQL gives no order). */
  function HistoryOn(h: History, date: string): (r: set<(string, string, Sighting)>)
    ensures forall k | k in h && k.0 == date :: (k.1, k.2, h[k]) in r
    ensures forall t | t in r :: (date, t.0, t.1) in h && h[(date, t.0, t.1)] == t.2
  {
    set k | k in h && k.0 == date :: (k.1, k.2, h[k])
  }

  /** A saved scan result is listed on its date: with the given row when
      the key was new, with the first row otherwise; the listing of every
      other date is unchanged. */
  lemma HistoryAfterSave(h: History, date: string, strategy: string, code: string, name: string,
                         price: real, market: string, other: string)
    ensures var row := if (date, strategy, code) in h then h[(date, strategy, code)] else Sighting(name, price, market);
      HistoryOn(SaveScanResult(h, date, strategy, code, name, price, market), date)
        == HistoryOn(h, date) + {(strategy, code, row)}
    ensures other != date ==>
      HistoryOn(SaveScanResult(h, date, strategy, code, name, price, market), other) == HistoryOn(h, other)
  {
    var k := (date, strategy, code);
    var r := SaveScanResult(h, date, strategy, code, name, price, market);
    var row := if k in h then h[k] else Sighting(name, price, market);
    forall t | t in HistoryOn(r, date)
      ensures t in HistoryOn(h, date) + {(strategy, code, row)}
    {
      if (date, t.0, t.1) != k {
        assert (date, t.0, t.1) in h;
      }
    }
    forall t | t in HistoryOn(h, date) + {(strategy, code, row)}
      ensures t in HistoryOn(r, date)
    {
      assert (date, t.0, t.1) in r;
    }
    if other != date {
      forall t | t in HistoryOn(r, other)
        ensures t in HistoryOn(h, other)
      {
        assert (other, t.0, t.1) in h;
      }
      forall t | t in HistoryOn(h, other)
        ensures t in HistoryOn(r, other)
      {
        assert (other, t.0, t.1) in r;
      }
    }
  }

  /** Saving a scan result adds its date to the dates with history and no other. */
  lemma DatesAfterScan(h: History, date: string, strategy: string, code: string, name: string,
                       price: real, market: string)
    ensures DatesOf(SaveScanResult(h, date, strategy, code, name, price, market)) == DatesOf(h) + {date}
  {
    var k := (date, strategy, code);
    var r := SaveScanResult(h, date, strategy, code, name, price, market);
    forall d | d in DatesOf(h) + {date}
      ensures d in DatesOf(r)
    {
      if d != date {
        var x :| x in h && x.0 == d;
        assert x in r;
      } else {
        assert k in r;
      }
    }
    forall d | d in DatesOf(r)
      ensures d in DatesOf(h) + {date}
    {
      var x :| x in r && x.0 == d;
      if x != k {
        assert x in h;
      }
    }
  }

  /** Wins and judged signals of one strategy. */
  datatype Tally = Tally(win: int, total: int)

  /** A row of `strategy_stats` beyond its key, the strategy name. */
  datatype StatRow = StatRow(winRate: real, totalCount: int, lastUpdated: string)

  type Stats = map<string, StatRow>

  /** The stored win rate: a percentage, or 0 with nothing judged. */
  function WinRatePercent(t: Tally): (r: real)
    ensures t.total <= 0 ==> r == 0.0
  {
    if t.total > 0 then (t.win as real / t.total as real) * 100.0 else 0.0
  }

  /** The rate lies in [0, 100] when the wins are a part of the total. */
  lemma WinRatePercentBounds(t: Tally)
    requires 0 <= t.win <= t.total
    ensures 0.0 <= WinRatePercent(t) <= 100.0
    ensures t.total > 0 ==> WinRatePercent(t) * t.total as real == 100.0 * t.win as real
  {
    if t.total > 0 {
      var q := t.win as real / t.total as real;
      assert q * t.total as real == t.win as real;
      assert q <= 1.0;
    }
  }

  /** `update_strategy_stats`: insert or replace one row per tallied strategy,
      stamped with `now`. */
  function UpdateStrategyStats(stats: Stats, tallies: map<string, Tally>, now: string): (r: Stats)
    ensures r.Keys == stats.Keys + tallies.Keys
    ensures forall s | s in stats && s !in tallies :: r[s] == stats[s]
    ensures forall s | s in tallies ::
      r[s].totalCount == tallies[s].total && r[s].lastUpdated == now
  {
    stats + map s | s in tallies :: StatRow(WinRatePercent(tallies[s]), tallies[s].total, now)
  }

  /** `get_strategy_stats`: name to stored win rate. */
  function StrategyStats(stats: Stats): (r: map<string, real>)
    ensures r.Keys == stats.Keys
  {
    map s | s in stats :: stats[s].winRate
  }

  /** After an update, each tallied strategy reads back its win-rate formula,
      replacing what was there, and the others read back unchanged. */
  lemma StatsReadBack(stats: Stats, tallies: map<string, Tally>, now: string, s: string)
    requires s in stats || s in tallies
    ensures s in StrategyStats(UpdateStrategyStats(stats, tallies, now))
    ensures StrategyStats(UpdateStrategyStats(stats, tallies, now))[s]
      == if s in tallies then WinRatePercent(tallies[s]) else StrategyStats(stats)[s]
  {
  }

  /** Updating twice with the same tallies is updating once, up to the stamp. */
  lemma UpdateStatsIdempotent(stats: Stats, tallies: map<string, Tally>, now1: string, now2: string)
    ensures UpdateStrategyStats(UpdateStrategyStats(stats, tallies, now1), tallies, now2)
      == UpdateStrategyStats(stats, tallies, now2)
  {
  }

  // ---------------------------------------------------------------------------
  // User database and deletion
  // ---------------------------------------------------------------------------

  /** The user database: its four tables. */
  datatype UserDb = UserDb(users: Users, favorites: Favorites, history: History, stats: Stats)

  /** `delete_user`: the user and all of the user's favorites go; nothing else changes. */
  function DeleteUser(db: UserDb, username: string): (r: UserDb)
    ensures r.users.Keys == db.users.Keys - {username}
    ensures forall u | u in r.users :: r.users[u] == db.users[u]
    ensures forall k :: k in r.favorites <==> k in db.favorites && k.0 != username
    ensures forall k | k in r.favorites :: r.favorites[k] == db.favorites[k]
    ensures r.history == db.history && r.stats == db.stats
  {
    UserDb(db.users - {username},
           map k | k in db.favorites && k.0 != username :: db.favorites[k],
           db.history, db.stats)
  }

  /** A deleted user has no favorites left, reads as an ordinary user, and
      cannot log in. */
  lemma DeletedUserIsGone(db: UserDb, username: string, password: string, hash: string -> string)
    ensures FavoritesOf(DeleteUser(db, username).favorites, username) == {}
    ensures UserRole(DeleteUser(db, username).users, username) == Member
    ensures !CheckLogin(DeleteUser(db, username).users, username, password, hash)
  {
  }

  /** After `delete_user` the user list is the old one without that name. */
  lemma DeleteUnlists(db: UserDb, username: string)
    ensures AllUsers(DeleteUser(db, username).users) == set t | t in AllUsers(db.users) && t.0 != username
  {
    var r := DeleteUser(db, username).users;
    forall t | t in AllUsers(db.users) && t.0 != username
      ensures t in AllUsers(r)
    {
      assert t.0 in r;
    }
  }

  /** Deleting a user never creates a second administrator. */
  lemma DeleteKeepsSingleAdmin(db: UserDb, username: string)
    requires AtMostOneAdmin(db.users)
    ensures AtMostOneAdmin(DeleteUser(db, username).users)
  {
  }

  // ---------------------------------------------------------------------------
  // Daily prices
  // ---------------------------------------------------------------------------

  /** A stored daily row beyond its key (code, date). */
  datatype PriceRow = PriceRow(open: real, high: Option<real>, low: Option<real>, close: real,
                               volume: Option<real>)

  type Prices = map<(string, string), PriceRow>

  /** One row of a fetched frame, with its date already rendered. */
  datatype DailyBar = DailyBar(date: string, open: Option<real>, high: Option<real>,
                               low: Option<real>, close: Option<real>, volume: Option<real>)

  /** A fetched row is stored only with both its open and its close. */
  predicate Storable(b: DailyBar) {
    b.open.Some? && b.close.Some?
  }

  function RowOf(b: DailyBar): PriceRow
    requires Storable(b)
  {
    PriceRow(b.open.value, b.high, b.low, b.close.value, b.volume)
  }

  /** The keys a batch of fetched rows asks to store. */
  function BatchKeys(code: string, bars: seq<DailyBar>): set<(string, string)> {
    set k | 0 <= k < |bars| && Storable(bars[k]) :: (code, bars[k].date)
  }

  /** `save_daily_price`: the rows with an open and a close, inserted or
      ignored in order under (code, date). */
  function SaveDailyPrice(p: Prices, bars: seq<DailyBar>, code: string): (r: Prices)
    ensures forall k | k in p :: k in r && r[k] == p[k]
    decreases |bars|
  {
    if |bars| == 0 then p
    else
      var b := bars[0];
      var next := if Storable(b) && (code, b.date) !in p then p[(code, b.date) := RowOf(b)] else p;
      SaveDailyPrice(next, bars[1..], code)
  }

  /** The stored keys are the old ones plus the batch's storable ones. */
  lemma {:induction false} SaveDailyPriceKeys(p: Prices, bars: seq<DailyBar>, code: string)
    ensures SaveDailyPrice(p, bars, code).Keys == p.Keys + BatchKeys(code, bars)
    decreases |bars|
  {
    if |bars| > 0 {
      var b := bars[0];
      var next := if Storable(b) && (code, b.date) !in p then p[(code, b.date) := RowOf(b)] else p;
      SaveDailyPriceKeys(next, bars[1..], code);
      var here := if Storable(b) then {(code, b.date)} else {};
      assert BatchKeys(code, bars) == here + BatchKeys(code, bars[1..]) by {
        forall x | x in BatchKeys(code, bars)
          ensures x in here + BatchKeys(code, bars[1..])
        {
          var k :| 0 <= k < |bars| && Storable(bars[k]) && x == (code, bars[k].date);
          if k > 0 {
            assert bars[1..][k - 1] == bars[k];
          }
        }
        forall x | x in BatchKeys(code, bars[1..])
          ensures x in BatchKeys(code, bars)
        {
          var k :| 0 <= k < |bars[1..]| && Storable(bars[1..][k]) && x == (code, bars[1..][k].date);
          assert bars[k + 1] == bars[1..][k];
        }
      }
    }
  }

  /** A newly stored row is the first storable row of its date in the batch. */
  lemma {:induction false} SaveDailyPriceFirst(p: Prices, bars: seq<DailyBar>, code: string, d: string)
    requires (code, d) !in p && (code, d) in SaveDailyPrice(p, bars, code)
    ensures exists k | 0 <= k < |bars| ::
      && Storable(bars[k]) && bars[k].date == d
      && SaveDailyPrice(p, bars, code)[(code, d)] == RowOf(bars[k])
      && forall j | 0 <= j < k :: !(Storable(bars[j]) && bars[j].date == d)
    decreases |bars|
  {
    var b := bars[0];
    var next := if Storable(b) && (code, b.date) !in p then p[(code, b.date) := RowOf(b)] else p;
    if Storable(b) && b.date == d {
      assert SaveDailyPrice(p, bars, code)[(code, d)] == RowOf(bars[0]);
    } else {
      assert (code, d) !in next;
      SaveDailyPriceFirst(next, bars[1..], code, d);
      var k :| 0 <= k < |bars[1..]|
        && Storable(bars[1..][k]) && bars[1..][k].date == d
        && SaveDailyPrice(next, bars[1..], code)[(code, d)] == RowOf(bars[1..][k])
        && forall j | 0 <= j < k :: !(Storable(bars[1..][j]) && bars[1..][j].date == d);
      forall j | 0 <= j < k + 1
        ensures !(Storable(bars[j]) && bars[j].date == d)
      {
        if j > 0 {
          assert bars[j] == bars[1..][j - 1];
        }
      }
      assert bars[k + 1] == bars[1..][k];
    }
  }

  /** The dates stored for one code. */
  function DatesFor(p: Prices, code: string): (r: set<string>)
    ensures forall d :: d in r <==> (code, d) in p
  {
    set k | k in p && k.0 == code :: k.1
  }

  /** After `save_daily_price` the code's dates are the old ones plus the
      dates of the batch's rows that have an open and a close; no other
      code's dates change. */
  lemma DatesAfterSave(p: Prices, bars: seq<DailyBar>, code: string, other: string)
    ensures DatesFor(SaveDailyPrice(p, bars, code), code)
      == DatesFor(p, code) + set k | 0 <= k < |bars| && Storable(bars[k]) :: bars[k].date
    ensures other != code ==> DatesFor(SaveDailyPrice(p, bars, code), other) == DatesFor(p, other)
  {
    SaveDailyPriceKeys(p, bars, code);
    var r := SaveDailyPrice(p, bars, code);
    var batch := set k | 0 <= k < |bars| && Storable(bars[k]) :: bars[k].date;
    forall d | d in DatesFor(r, code)
      ensures d in DatesFor(p, code) + batch
    {
      if (code, d) !in p {
        assert (code, d) in BatchKeys(code, bars);
        var k :| 0 <= k < |bars| && Storable(bars[k]) && (code, d) == (code, bars[k].date);
        assert d in batch;
      }
    }
    forall d | d in batch
      ensures d in DatesFor(r, code)
    {
      var k :| 0 <= k < |bars| && Storable(bars[k]) && d == bars[k].date;
      assert (code, d) in BatchKeys(code, bars);
    }
    if other != code {
      forall d | d in DatesFor(r, other)
        ensures d in DatesFor(p, other)
      {
        assert (other, d) !in BatchKeys(code, bars);
      }
    }
  }

  /** `get_last_price_date`: the latest stored date of the code, none without rows. */
  method LastPriceDate(p: Prices, code: string) returns (r: Option<string>)
    ensures r.None? <==> DatesFor(p, code) == {}
    ensures r.Some? ==> (code, r.value) in p
    ensures r.Some? ==> forall d | (code, d) in p :: d == r.value || Below(d, r.value)
  {
    var dates := SortAscending(DatesFor(p, code));
    if |dates| == 0 {
      r := None;
    } else {
      assert dates[0] in DatesFor(p, code);
      var last := dates[|dates| - 1];
      r := Some(last);
      forall d | (code, d) in p
        ensures d == last || Below(d, last)
      {
        assert d in dates;
        var k :| 0 <= k < |dates| && dates[k] == d;
      }
    }
  }

  /** `load_daily_price`: the code's rows in ascending date order, none without rows. */
  method LoadDailyPrice(p: Prices, code: string) returns (r: Option<seq<(string, PriceRow)>>)
    ensures r.None? <==> DatesFor(p, code) == {}
    ensures r.Some? ==> forall k | 0 <= k < |r.value| ::
      (code, r.value[k].0) in p && r.value[k].1 == p[(code, r.value[k].0)]
    ensures r.Some? ==> forall i, j | 0 <= i < j < |r.value| :: Below(r.value[i].0, r.value[j].0)
    ensures r.Some? ==> forall d | (code, d) in p :: exists k | 0 <= k < |r.value| :: r.value[k].0 == d
  {
    var dates := SortAscending(DatesFor(p, code));
    if |dates| == 0 {
      r := None;
    } else {
      assert dates[0] in DatesFor(p, code);
      var rows := seq(|dates|, k requires 0 <= k < |dates| => (dates[k], p[(code, dates[k])]));
      r := Some(rows);
      forall d | (code, d) in p
        ensures exists k | 0 <= k < |rows| :: rows[k].0 == d
      {
        assert d in dates;
        var k :| 0 <= k < |dates| && dates[k] == d;
        assert rows[k].0 == d;
      }
    }
  }
}
