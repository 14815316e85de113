/**
 The contact list of frontend/src/components/Sidebar.jsx, computed afresh on
 every render from the store's `users` and `selectedUser`, the presence list
 `onlineUsers` (the last `getOnlineUsers` broadcast) and the local
 "show online only" toggle.
 */
module Sidebar {
  import opened ChatTypes
  import opened Sequences

  /** `onlineUsers.includes(user._id)` */
  predicate IsOnline(user: User, onlineUsers: seq<UserId>)
  {
    user.id in onlineUsers
  }

  /** `selectedUser?._id === user._id` */
  predicate IsSelected(selectedUser: Option<User>, user: User)
  {
    selectedUser.Some? && selectedUser.value.id == user.id
  }

  /** `users.filter((user) => onlineUsers.includes(user._id))` */
  function OnlineOnly(users: seq<User>, onlineUsers: seq<UserId>): (r: seq<User>)
    ensures |r| <= |users|
    ensures forall u :: u in r <==> u in users && IsOnline(u, onlineUsers)
  {
    if users == [] then []
    else if IsOnline(users[0], onlineUsers) then [users[0]] + OnlineOnly(users[1..], onlineUsers)
    else OnlineOnly(users[1..], onlineUsers)
  }

  /** The filter keeps the contacts in their order. */
  lemma {:induction false} OnlineOnlyKeepsOrder(users: seq<User>, onlineUsers: seq<UserId>)
    ensures IsSubsequence(OnlineOnly(users, onlineUsers), users)
  {
    if users != [] {
      OnlineOnlyKeepsOrder(users[1..], onlineUsers);
      var rest := OnlineOnly(users[1..], onlineUsers);
      if IsOnline(users[0], onlineUsers) {
        assert ([users[0]] + rest)[1..] == rest;
      }
    }
  }

  /** The filter keeps every online contact exactly as often as it is
      listed (duplicates included) and no other. */
  lemma {:induction false} OnlineOnlyCounts(users: seq<User>, onlineUsers: seq<UserId>)
    ensures forall u :: multiset(OnlineOnly(users, onlineUsers))[u]
                        == if IsOnline(u, onlineUsers) then multiset(users)[u] else 0
  {
    if users != [] {
      OnlineOnlyCounts(users[1..], onlineUsers);
      assert users == [users[0]] + users[1..];
    }
  }

  /** `filteredUsers` */
  function FilteredUsers(users: seq<User>, onlineUsers: seq<UserId>, showOnlineOnly: bool): seq<User>
  {
    if showOnlineOnly then OnlineOnly(users, onlineUsers) else users
  }

  /** With the toggle off every contact is listed as is; with it on exactly
      the online contacts are, in their order and as often as they are
      listed. */
  lemma FilteredUsersSpec(users: seq<User>, onlineUsers: seq<UserId>, showOnlineOnly: bool)
    ensures !showOnlineOnly ==> FilteredUsers(users, onlineUsers, showOnlineOnly) == users
    ensures IsSubsequence(FilteredUsers(users, onlineUsers, showOnlineOnly), users)
    ensures showOnlineOnly ==>
              forall u :: multiset(FilteredUsers(users, onlineUsers, showOnlineOnly))[u]
                          == if IsOnline(u, onlineUsers) then multiset(users)[u] else 0
    ensures showOnlineOnly ==>
              forall u :: (u in FilteredUsers(users, onlineUsers, showOnlineOnly)
                           <==> u in users && IsOnline(u, onlineUsers))
  {
    if showOnlineOnly {
      OnlineOnlyKeepsOrder(users, onlineUsers);
      OnlineOnlyCounts(users, onlineUsers);
    } else {
      SubsequenceRefl(users);
    }
  }

  /** `(onlineUsers?.length || 1) - 1`, with `None` for a missing list. */
  function OnlineCount(onlineUsers: Option<seq<UserId>>): (n: int)
    ensures n >= 0
    ensures onlineUsers.None? || onlineUsers.value == [] ==> n == 0
    ensures onlineUsers.Some? && onlineUsers.value != [] ==> n == |onlineUsers.value| - 1
  {
    var length := if onlineUsers.Some? then |onlineUsers.value| else 0;
    (if length != 0 then length else 1) - 1
  }

  /** One contact row: the user, highlighted or not, with its online dot. */
  datatype Row = Row(user: User, selected: bool, online: bool)

  /** The rendered sidebar: the skeleton while contacts load, else the
      header count, the rows, and whether "No online users" is shown. */
  datatype View =
    | LoadingSkeleton
    | Contacts(onlineCount: int, rows: seq<Row>, showsNoOnlineUsers: bool)

  function Rows(users: seq<User>, selectedUser: Option<User>, onlineUsers: seq<UserId>): (rows: seq<Row>)
    ensures |rows| == |users|
    ensures forall i :: 0 <= i < |users| ==>
              rows[i] == Row(users[i], IsSelected(selectedUser, users[i]), IsOnline(users[i], onlineUsers))
  {
    if users == [] then []
    else [Row(users[0], IsSelected(selectedUser, users[0]), IsOnline(users[0], onlineUsers))]
         + Rows(users[1..], selectedUser, onlineUsers)
  }

  function Render(isUsersLoading: bool, users: seq<User>, selectedUser: Option<User>,
                  onlineUsers: seq<UserId>, showOnlineOnly: bool): View
  {
    if isUsersLoading then LoadingSkeleton
    else
      var filtered := FilteredUsers(users, onlineUsers, showOnlineOnly);
      Contacts(OnlineCount(Some(onlineUsers)), Rows(filtered, selectedUser, onlineUsers), |filtered| == 0)
  }

  /** What a rendered sidebar promises: the count is never negative; the
      rows are the filtered contacts in order; a row is highlighted exactly
      when it is the selected user and marked online exactly when its id is
      in the presence list; with the toggle on every row is online; and the
      "No online users" notice shows exactly when no row does. */
  lemma RenderSpec(users: seq<User>, selectedUser: Option<User>, onlineUsers: seq<UserId>,
                   showOnlineOnly: bool)
    ensures var v := Render(false, users, selectedUser, onlineUsers, showOnlineOnly);
            && v.Contacts?
            && v.onlineCount >= 0
            && |v.rows| == |FilteredUsers(users, onlineUsers, showOnlineOnly)|
            && (forall i :: 0 <= i < |v.rows| ==>
                  v.rows[i].user == FilteredUsers(users, onlineUsers, showOnlineOnly)[i]
                  && (v.rows[i].selected <==> selectedUser.Some? && selectedUser.value.id == v.rows[i].user.id)
                  && (v.rows[i].online <==> v.rows[i].user.id in onlineUsers))
            && (showOnlineOnly ==> forall i :: 0 <= i < |v.rows| ==> v.rows[i].online)
            && (v.showsNoOnlineUsers <==> v.rows == [])
  {
    var filtered := FilteredUsers(users, onlineUsers, showOnlineOnly);
    if showOnlineOnly {
      forall i | 0 <= i < |filtered| ensures IsOnline(filtered[i], onlineUsers) {
        assert filtered[i] in filtered;
      }
    }
  }
}
