/**
 * The read-only helpers behind the bot's lists and cards: how a user is
 * named, the medal for a number of completed missions, and the pagination of
 * a unit's member list.
 */
module Views {
  import opened Optional
  import opened Text
  import opened Sorting
  import opened Types

  // ---------------------------------------------------------------------------
  // get_username_display
  // ---------------------------------------------------------------------------

  /** The cached username of `u`, when one is cached and not empty (Python truthiness). */
  function CachedName(usernames: map<string, Option<string>>, u: UserId): Option<string> {
    var key := Decimal(u);
    if key in usernames && usernames[key].Some? && usernames[key].value != "" then usernames[key] else None
  }

  /** `@name` for a cached username (not doubling a leading `@`), otherwise `ID: <id>`. */
  function DisplayName(usernames: map<string, Option<string>>, u: UserId): string {
    var cached := CachedName(usernames, u);
    if cached.Some? then
      var name := cached.value;
      if StartsWith(name, "@") then name else "@" + name
    else "ID: " + Decimal(u)
  }

  /** A cached name is shown with one leading `@`; otherwise the id is shown and can be read back. */
  lemma DisplayNameReads(usernames: map<string, Option<string>>, u: UserId)
    ensures CachedName(usernames, u).Some? ==>
      var name := CachedName(usernames, u).value;
      DisplayName(usernames, u) == (if StartsWith(name, "@") then name else "@" + name)
    ensures CachedName(usernames, u).None? ==>
      var r := DisplayName(usernames, u);
      StartsWith(r, "ID: ") && ParseInt(r[4..]) == Some(u)
  {
    if CachedName(usernames, u).None? {
      var r := "ID: " + Decimal(u);
      StartsWithConcat("ID: ", Decimal(u));
      assert r[4..] == Decimal(u);
      DecimalRoundTrip(u);
    }
  }

  /** A displayed name always starts with `@` or with `ID: `. */
  lemma DisplayNameShape(usernames: map<string, Option<string>>, u: UserId)
    ensures var r := DisplayName(usernames, u);
      StartsWith(r, "@") || StartsWith(r, "ID: ")
  {
    DisplayNameReads(usernames, u);
    var cached := CachedName(usernames, u);
    if cached.Some? && !StartsWith(cached.value, "@") {
      StartsWithConcat("@", cached.value);
    }
  }

  /** Two users without a cached name are never displayed alike. */
  lemma DisplayNameDistinguishes(usernames: map<string, Option<string>>, u: UserId, v: UserId)
    requires CachedName(usernames, u).None? && CachedName(usernames, v).None?
    requires DisplayName(usernames, u) == DisplayName(usernames, v)
    ensures u == v
  {
    DisplayNameReads(usernames, u);
    DisplayNameReads(usernames, v);
  }

  // ---------------------------------------------------------------------------
  // update_username_cache
  // ---------------------------------------------------------------------------

  /**
   * `update_username_cache(u, username)`: a non-empty username replaces the
   * cached one; without one, an id not cached yet gets an explicit `None`.
   */
  function RefreshName(usernames: map<string, Option<string>>, u: UserId, username: Option<string>): (r: map<string, Option<string>>)
    ensures Decimal(u) in r
    ensures forall k :: k in usernames ==> k in r
    ensures forall k :: k in r && k != Decimal(u) ==> k in usernames && r[k] == usernames[k]
  {
    var key := Decimal(u);
    if username.Some? && username.value != "" then usernames[key := username]
    else if key in usernames then usernames
    else usernames[key := None]
  }

  /**
   * After the refresh, a non-empty username is what the user is displayed by;
   * without one, the display is what it was before.
   */
  lemma RefreshShows(usernames: map<string, Option<string>>, u: UserId, username: Option<string>)
    ensures username.Some? && username.value != "" ==>
      var name := username.value;
      DisplayName(RefreshName(usernames, u, username), u) == if StartsWith(name, "@") then name else "@" + name
    ensures username.None? || username == Some("") ==>
      DisplayName(RefreshName(usernames, u, username), u) == DisplayName(usernames, u)
  {
    var r := RefreshName(usernames, u, username);
    if username.Some? && username.value != "" {
      assert CachedName(r, u) == username;
    } else {
      assert CachedName(r, u) == CachedName(usernames, u);
    }
  }

  // ---------------------------------------------------------------------------
  // get_user_medal_and_count
  // ---------------------------------------------------------------------------

  /** The Completed missions that list `u` among those who completed them. */
  function CompletedBy(archive: map<MissionId, Mission>, u: UserId): set<MissionId> {
    set id | id in archive && archive[id].status == Completed && u in archive[id].completedBy
  }

  /** Medal rank: 0 none, 1 bronze (10+), 2 silver (25+), 3 gold (50+), 4 the top medal (100+). */
  function Rank(completed: nat): (r: nat)
    ensures r <= 4
    ensures r >= 1 <==> completed >= 10
    ensures r >= 2 <==> completed >= 25
    ensures r >= 3 <==> completed >= 50
    ensures r >= 4 <==> completed >= 100
  {
    if completed >= 100 then 4
    else if completed >= 50 then 3
    else if completed >= 25 then 2
    else if completed >= 10 then 1
    else 0
  }

  /** More completed missions never earn a lower medal. */
  lemma RankMonotone(a: nat, b: nat)
    requires a <= b
    ensures Rank(a) <= Rank(b)
  {
  }

  function MedalOfRank(r: nat): string
    requires r <= 4
  {
    if r == 4 then "\U{1F3C5}"
    else if r == 3 then "\U{1F947}"
    else if r == 2 then "\U{1F948}"
    else if r == 1 then "\U{1F949}"
    else ""
  }

  /** `"<medal> <count>"`, or `"0"` for a user with no completed mission. */
  function MedalAndCount(completed: nat): (r: string)
    ensures completed == 0 <==> r == "0"
    ensures completed > 0 ==> r == MedalOfRank(Rank(completed)) + " " + Decimal(completed)
  {
    if completed > 0 then MedalOfRank(Rank(completed)) + " " + Decimal(completed) else "0"
  }

  // ---------------------------------------------------------------------------
  // Member-list pagination
  // ---------------------------------------------------------------------------

  /** Python's normalisation of a slice bound `i` for a sequence of length `len`. */
  function SliceBound(i: int, len: nat): (r: nat)
    ensures r <= len
    ensures 0 <= i <= len ==> r == i
  {
    if i < 0 then (if i + len < 0 then 0 else i + len) else if i > len then len else i
  }

  /** Python's `s[start:end]`. */
  function Slice<T>(s: seq<T>, start: int, end: int): (r: seq<T>)
    ensures |r| <= |s|
  {
    var a := SliceBound(start, |s|);
    var b := SliceBound(end, |s|);
    if a < b then s[a..b] else []
  }

  /** The page requested by `list_<unit>_page_<n>` data; page 0 otherwise or when `n` is not a number. */
  function RequestedPage(parts: seq<string>): int {
    if |parts| >= 4 && parts[2] == "page" then
      var n := ParseInt(parts[3]);
      if n.Some? then n.value else 0
    else 0
  }

  /** Parts `[_, _, "page", num]` ask for the page `num` reads as. */
  lemma PageWordRead(w0: string, w1: string, num: string, n: int)
    requires ParseInt(num) == Some(n)
    ensures RequestedPage([w0, w1, "page", num]) == n
  {
  }

  function PageCount(total: nat): int {
    (total - 1) / PageSize + 1
  }

  /** The page `page` of a non-empty sorted member list. */
  function PageOf(sorted: seq<UserId>, page: int): (p: Page)
    requires |sorted| > 0
    ensures p.total == |sorted| && p.number == page + 1 && p.count == PageCount(|sorted|)
    ensures forall x :: x in p.members ==> x in sorted
    ensures |p.members| <= PageSize
  {
    var start := page * PageSize;
    var end := start + PageSize;
    var shown := Slice(sorted, start, end);
    assert forall x :: x in shown ==> x in sorted;
    Page(shown, |sorted|, page + 1, PageCount(|sorted|), start > 0, end < |sorted|)
  }

  /** The page `page` of a unit's member list, sorted; `None` when the unit is empty. */
  function ListPage(members: set<UserId>, page: int): (r: Option<Page>)
    ensures r.None? <==> members == {}
    ensures r.Some? ==> r.value == PageOf(SortedSeq(members), page) && r.value.total == |members|
  {
    var sorted := SortedSeq(members);
    if |sorted| == 0 then None else Some(PageOf(sorted, page))
  }

  /**
   * Pages in range show the 10 members starting at `10 * page` of the sorted
   * list, offer "previous" exactly after the first page and "next" exactly
   * before the last one.
   */
  lemma PageInRange(sorted: seq<UserId>, page: int)
    requires |sorted| > 0 && 0 <= page < PageCount(|sorted|)
    ensures var p := PageOf(sorted, page);
      && p.members == sorted[page * PageSize .. if (page + 1) * PageSize < |sorted| then (page + 1) * PageSize else |sorted|]
      && p.members != []
      && (p.previous <==> page > 0)
      && (p.next <==> page + 1 < PageCount(|sorted|))
  {
    PageBound(|sorted|, page);
  }

  lemma PageBound(total: nat, page: nat)
    requires total > 0 && page < PageCount(total)
    ensures page * PageSize < total
  {
    var q := (total - 1) / PageSize;
    assert page <= q;
    assert q * PageSize <= total - 1;
  }

  lemma DivBounds(i: nat)
    ensures (i / PageSize) * PageSize <= i < (i / PageSize) * PageSize + PageSize
  {
  }

  lemma DivMonotone(a: nat, b: nat)
    requires a <= b
    ensures a / PageSize <= b / PageSize
  {
    DivBounds(a);
    DivBounds(b);
  }

  /** Every entry of the list is shown on the page its position falls on. */
  lemma EntryOnItsPage(sorted: seq<UserId>, i: nat)
    requires i < |sorted|
    ensures var page := i / PageSize;
      page < PageCount(|sorted|) && sorted[i] in PageOf(sorted, page).members
  {
    var page := i / PageSize;
    var total := |sorted|;
    DivBounds(i);
    DivMonotone(i, total - 1);
    PageInRange(sorted, page);
    var lo := page * PageSize;
    var hi := if (page + 1) * PageSize < total then (page + 1) * PageSize else total;
    assert sorted[lo..hi][i - lo] == sorted[i];
  }

  /** Every member of a unit appears on some page of its list. */
  lemma MemberListed(members: set<UserId>, x: UserId)
    requires x in members
    ensures exists page :: 0 <= page < PageCount(|members|) && x in ListPage(members, page).value.members
  {
    var sorted := SortedSeq(members);
    var i :| 0 <= i < |sorted| && sorted[i] == x;
    EntryOnItsPage(sorted, i);
    var page := i / PageSize;
    assert ListPage(members, page).value == PageOf(sorted, page);
    assert x in ListPage(members, page).value.members;
  }
}
