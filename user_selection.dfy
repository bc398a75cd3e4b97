/**
 * The dialog that picks a user for a task (dialogs/UserSelectionDialog.java):
 * the loaded users, the users matching the search box, and the part of them
 * shown, ten more per press of "load more". The view updates are left out;
 * the lists, the page and the two flags are the dialog's fields.
 */
module UserSelection {
  import opened Common
  import opened UserSearch

  /** `PAGE_SIZE`: users shown per page. */
  const PageSize := 10

  /** Every user can be searched: `displayName.toLowerCase()` and `email.toLowerCase()` need both. */
  predicate Searchable(users: seq<UserInfo>)
  {
    forall i :: 0 <= i < |users| ==> users[i].displayName.Some? && users[i].email.Some?
  }

  /** The search box matches a user whose lower-cased name or e-mail contains the lower-cased text. */
  predicate Matches(u: UserInfo, query: string)
    requires u.displayName.Some? && u.email.Some?
  {
    Contains(Lower(u.displayName.value), Lower(query)) || Contains(Lower(u.email.value), Lower(query))
  }

  /** The users of `users` that match, in their order. */
  function Matching(users: seq<UserInfo>, query: string): (r: seq<UserInfo>)
    requires Searchable(users)
    ensures |r| <= |users|
    ensures Searchable(r)
  {
    if users == [] then []
    else
      var rest := Matching(users[..|users| - 1], query);
      var u := users[|users| - 1];
      if Matches(u, query) then rest + [u] else rest
  }

  /** What `filterUsers(query)` keeps: everything for an empty query, else the matching users. */
  function Filtered(users: seq<UserInfo>, query: string): (r: seq<UserInfo>)
    requires Searchable(users)
    ensures Searchable(r)
  {
    if query == "" then users else Matching(users, query)
  }

  /** A user is kept exactly when it was loaded and matches. */
  lemma {:induction false} MatchingMembers(users: seq<UserInfo>, query: string, u: UserInfo)
    requires Searchable(users)
    ensures u in Matching(users, query) <==> u in users && Matches(u, query)
  {
    if users != [] {
      var init := users[..|users| - 1];
      MatchingMembers(init, query, u);
      assert users == init + [users[|users| - 1]];
    }
  }

  /** Every user matches the empty text, so the two branches of `filterUsers` agree on it. */
  lemma EmptyQueryMatchesAll(u: UserInfo)
    requires u.displayName.Some? && u.email.Some?
    ensures Matches(u, "")
  {
    assert OccursAt(Lower(u.displayName.value), Lower(""), 0);
  }

  /** `min((currentPage + 1) * PAGE_SIZE, filteredUsers.size())`: how many users are shown. */
  function ShownCount(n: nat, page: nat): (k: nat)
    ensures k <= n
    ensures k == n || k == (page + 1) * PageSize
  {
    if (page + 1) * PageSize < n then (page + 1) * PageSize else n
  }

  /**
   * The "load more" flag is set exactly when some filtered user is not
   * shown; the next page shows between one and ten more users when it is
   * set, and the same users when it is not.
   */
  lemma PagingFacts(n: nat, page: nat)
    ensures n > (page + 1) * PageSize <==> ShownCount(n, page) < n
    ensures ShownCount(n, page) <= ShownCount(n, page + 1) <= ShownCount(n, page) + PageSize
    ensures n > (page + 1) * PageSize ==> ShownCount(n, page + 1) > ShownCount(n, page)
    ensures n <= (page + 1) * PageSize ==> ShownCount(n, page + 1) == n
  {
  }

  /** The search loop of `filterUsers`: all users for the empty text, else those that match. */
  method KeepFiltered(users: seq<UserInfo>, query: string) returns (kept: seq<UserInfo>)
    requires Searchable(users)
    ensures kept == Filtered(users, query)
  {
    if query == "" {
      return users;
    }
    kept := [];
    for i := 0 to |users|
      invariant kept == Matching(users[..i], query)
    {
      assert users[..i + 1][..i] == users[..i];
      if Matches(users[i], query) {
        kept := kept + [users[i]];
      }
    }
    assert users[..|users|] == users;
  }

  class UserSelectionDialog {
    var allUsers: seq<UserInfo>
    var filteredUsers: seq<UserInfo>
    var displayedUsers: seq<UserInfo>
    var currentPage: nat
    var isLoading: bool
    var hasMoreData: bool

    /** The shown users are the first page-worth of the filtered ones. */
    predicate Valid()
      reads this
    {
      displayedUsers == filteredUsers[..ShownCount(|filteredUsers|, currentPage)]
    }

    /** A new dialog: no users, the first page, not loading, "has more" set. */
    constructor()
      ensures Valid()
      ensures allUsers == [] && filteredUsers == [] && displayedUsers == []
      ensures currentPage == 0 && !isLoading && hasMoreData
    {
      allUsers, filteredUsers, displayedUsers := [], [], [];
      currentPage, isLoading, hasMoreData := 0, false, true;
    }

    /**
     * `updateDisplayedUsers()`: the shown list is refilled with the first
     * `min((currentPage + 1) * 10, n)` filtered users, and "has more" says
     * whether any filtered user is left out.
     */
    method UpdateDisplayedUsers()
      modifies this
      ensures Valid()
      ensures hasMoreData <==> |filteredUsers| > (currentPage + 1) * PageSize
      ensures allUsers == old(allUsers) && filteredUsers == old(filteredUsers)
      ensures currentPage == old(currentPage) && isLoading == old(isLoading)
    {
      var shown: seq<UserInfo> := [];
      var endIndex := ShownCount(|filteredUsers|, currentPage);
      for i := 0 to endIndex
        invariant shown == filteredUsers[..i]
      {
        assert filteredUsers[..i + 1] == filteredUsers[..i] + [filteredUsers[i]];
        shown := shown + [filteredUsers[i]];
      }
      displayedUsers := shown;
      hasMoreData := |filteredUsers| > (currentPage + 1) * PageSize;
    }

    /** `filterUsers(query)`: back to the first page of the users the query keeps. */
    method FilterUsers(query: string)
      requires Searchable(allUsers)
      modifies this
      ensures allUsers == old(allUsers) && isLoading == old(isLoading)
      ensures Valid()
      ensures filteredUsers == Filtered(allUsers, query) && currentPage == 0
      ensures hasMoreData <==> |filteredUsers| > PageSize
    {
      var kept := KeepFiltered(allUsers, query);
      currentPage := 0;
      filteredUsers := kept;
      UpdateDisplayedUsers();
    }

    /** `loadNextPage()`: one more page. */
    method LoadNextPage()
      modifies this
      ensures Valid()
      ensures currentPage == old(currentPage) + 1
      ensures hasMoreData <==> |filteredUsers| > (currentPage + 1) * PageSize
      ensures allUsers == old(allUsers) && filteredUsers == old(filteredUsers) && isLoading == old(isLoading)
    {
      currentPage := currentPage + 1;
      UpdateDisplayedUsers();
    }

    /** The "load more" button: a next page only when there is more and nothing is loading. */
    method OnLoadMoreClicked()
      modifies this
      ensures old(hasMoreData) && !old(isLoading) ==>
                (currentPage == old(currentPage) + 1 && Valid()
                 && (hasMoreData <==> |filteredUsers| > (currentPage + 1) * PageSize))
      ensures !(old(hasMoreData) && !old(isLoading)) ==>
                currentPage == old(currentPage) && displayedUsers == old(displayedUsers) && hasMoreData == old(hasMoreData)
      ensures allUsers == old(allUsers) && filteredUsers == old(filteredUsers) && isLoading == old(isLoading)
    {
      if hasMoreData && !isLoading {
        LoadNextPage();
      }
    }

    /** `loadUsers()`: loading until the list arrives. */
    method LoadUsers()
      modifies this
      ensures isLoading
      ensures allUsers == old(allUsers) && filteredUsers == old(filteredUsers) && displayedUsers == old(displayedUsers)
      ensures currentPage == old(currentPage) && hasMoreData == old(hasMoreData)
    {
      isLoading := true;
    }

    /** `onUsersLoaded(users)`: every user loaded and kept, the first page shown, loading over. */
    method OnUsersLoaded(users: seq<UserInfo>)
      modifies this
      ensures Valid()
      ensures allUsers == users && filteredUsers == users && currentPage == 0 && !isLoading
      ensures hasMoreData <==> |users| > PageSize
    {
      allUsers := users;
      filteredUsers := users;
      currentPage := 0;
      UpdateDisplayedUsers();
      isLoading := false;
    }

    /** `onError(error)`: loading over; the lists and the page stay. The text shown is returned. */
    method OnError(error: string) returns (shown: string)
      modifies this
      ensures shown == "Lỗi tải dữ liệu: " + error && !isLoading
      ensures allUsers == old(allUsers) && filteredUsers == old(filteredUsers) && displayedUsers == old(displayedUsers)
      ensures currentPage == old(currentPage) && hasMoreData == old(hasMoreData)
    {
      shown := "Lỗi tải dữ liệu: " + error;
      isLoading := false;
    }
  }

  /**
   * Pressing "load more" while nothing loads reveals the filtered users page
   * by page, keeping those already shown; once the flag drops every filtered
   * user is shown.
   */
  method LoadMoreRevealsPrefix(d: UserSelectionDialog)
    requires d.Valid() && !d.isLoading
    requires d.hasMoreData <==> |d.filteredUsers| > (d.currentPage + 1) * PageSize
    modifies d
    ensures d.Valid()
    ensures old(d.displayedUsers) <= d.displayedUsers
    ensures !d.hasMoreData ==> d.displayedUsers == d.filteredUsers
  {
    PagingFacts(|d.filteredUsers|, d.currentPage);
    assert d.filteredUsers[..|d.filteredUsers|] == d.filteredUsers;
    if !d.hasMoreData {
      return;
    }
    d.OnLoadMoreClicked();
    PagingFacts(|d.filteredUsers|, d.currentPage);
  }
}
