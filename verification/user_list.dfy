/**
 * The resident list of the sidebar (src/components/UserList.tsx): a text search over
 * name and room, then, unless "すべて表示" is on, a filter that hides residents who are in
 * hospital, have moved out, or are placeholder "空床" (vacant bed) rows.
 */
module UserList {
  import opened Wrappers
  import opened JsText
  import opened JsArray
  import opened Types

  /** `HIDDEN_STATUSES`: in hospital, moved out. */
  const HiddenStatuses: seq<string> := ["入院", "退所"]

  /** The marker in a name that makes the row a vacant bed. */
  const VacantBed: string := "空床"

  /** `u.name.includes(query) || (u.building_room ?? "").includes(query)` */
  predicate MatchesQuery(query: string, u: UserSummary) {
    Contains(u.name, query) || Contains(u.building_room.GetOr(""), query)
  }

  /** `searched`: the users that match the query, in their order. */
  function Searched(users: seq<UserSummary>, query: string): (r: seq<UserSummary>)
    ensures |r| <= |users|
  {
    Filter(users, (u: UserSummary) => MatchesQuery(query, u))
  }

  /** The default rule: the status (null read as "") is not hidden and the name is not a vacant bed. */
  predicate IsShownByDefault(u: UserSummary) {
    u.status.GetOr("") !in HiddenStatuses && !Contains(u.name, VacantBed)
  }

  /** `filtered`: the search result itself with `showAll`, its default-visible users otherwise. */
  function Filtered(searched: seq<UserSummary>, showAll: bool): (r: seq<UserSummary>)
    ensures |r| <= |searched|
  {
    if showAll then searched else Filter(searched, IsShownByDefault)
  }

  /** The list the sidebar shows for a query and a toggle state. */
  function Visible(users: seq<UserSummary>, query: string, showAll: bool): (r: seq<UserSummary>)
    ensures |r| <= |users|
  {
    Filtered(Searched(users, query), showAll)
  }

  /**
   * The search keeps the users whose name or room (null read as "") contains the query, in
   * their order and adding nobody; the empty query keeps every user.
   */
  lemma SearchedSpec(users: seq<UserSummary>, query: string, u: UserSummary)
    ensures IsSubsequence(Searched(users, query), users)
    ensures u in Searched(users, query) <==>
      u in users && (Contains(u.name, query) || Contains(u.building_room.GetOr(""), query))
    ensures query == "" ==> Searched(users, query) == users
  {
    var p := (v: UserSummary) => MatchesQuery(query, v);
    FilterIsSubsequence(users, p);
    FilterMembership(users, p, u);
    if query == "" {
      forall i | 0 <= i < |users| ensures p(users[i]) {
        ContainsEmpty(users[i].name);
      }
      FilterKeepsAll(users, p);
    }
  }

  /**
   * With "すべて表示" on the list is the search result; otherwise it keeps, in order, exactly
   * the searched users whose status is neither 入院 nor 退所 and whose name does not contain 空床.
   */
  lemma FilteredSpec(searched: seq<UserSummary>, showAll: bool, u: UserSummary)
    ensures showAll ==> Filtered(searched, showAll) == searched
    ensures IsSubsequence(Filtered(searched, showAll), searched)
    ensures !showAll ==>
      (u in Filtered(searched, showAll) <==>
        u in searched && u.status != Some("入院") && u.status != Some("退所") && !Contains(u.name, "空床"))
  {
    if showAll {
      assert IsSubsequence(searched, searched) by {
        FilterKeepsAll(searched, (v: UserSummary) => true);
        FilterIsSubsequence(searched, (v: UserSummary) => true);
      }
    } else {
      FilterIsSubsequence(searched, IsShownByDefault);
      FilterMembership(searched, IsShownByDefault, u);
    }
  }

  /** A null status is never hidden by the status rule: only the 空床 name rule can hide such a user. */
  lemma NullStatusNotHidden(u: UserSummary)
    requires u.status.None?
    ensures IsShownByDefault(u) <==> !Contains(u.name, VacantBed)
  {
  }

  /**
   * The status rule compares whole values: a status that merely contains 入院 (such as
   * "入院予定") does not hide the user.
   */
  lemma StatusComparedExactly(u: UserSummary)
    requires u.status == Some("入院予定") && !Contains(u.name, VacantBed)
    ensures IsShownByDefault(u)
  {
    assert "入院予定" != HiddenStatuses[0] by {
      assert |"入院予定"| != |HiddenStatuses[0]|;
    }
    assert "入院予定" != HiddenStatuses[1] by {
      assert |"入院予定"| != |HiddenStatuses[1]|;
    }
  }

  /**
   * The two filters compose into one: the visible list holds, in order, exactly the users
   * that match the query and (unless "すべて表示" is on) are shown by default, and it never
   * grows when the toggle is turned off.
   */
  lemma VisibleSpec(users: seq<UserSummary>, query: string, showAll: bool)
    ensures Visible(users, query, showAll) ==
      Filter(users, (u: UserSummary) => MatchesQuery(query, u) && (showAll || IsShownByDefault(u)))
    ensures IsSubsequence(Visible(users, query, false), Visible(users, query, true))
  {
    var p := (u: UserSummary) => MatchesQuery(query, u);
    var pq := (u: UserSummary) => MatchesQuery(query, u) && (showAll || IsShownByDefault(u));
    if showAll {
      FilterFilter(users, p, (u: UserSummary) => true, pq);
      FilterKeepsAll(Searched(users, query), (u: UserSummary) => true);
    } else {
      FilterFilter(users, p, IsShownByDefault, pq);
    }
    FilterIsSubsequence(Searched(users, query), IsShownByDefault);
  }
}
