/** The admin user table: a name/e-mail search over the user list and the set
    of ticked rows, held as a list of user ids. */
module Admin {
  import opened Text
  import opened Seqs

  datatype Plan = Monthly | Yearly
  datatype UserStatus = Active | Inactive | Suspended

  datatype User = User(
    id: string,
    name: string,
    email: string,
    plan: Plan,
    status: UserStatus,
    joinDate: string,
    lastActive: string,
    braceletLinked: bool)

  /** Case-insensitive substring search over the name and the e-mail. */
  predicate MatchesUserSearch(user: User, searchTerm: string)
  {
    Contains(Lower(user.name), Lower(searchTerm)) || Contains(Lower(user.email), Lower(searchTerm))
  }

  /** The callback handed to `users.filter`. */
  function KeepUser(searchTerm: string): User -> bool
  {
    user => MatchesUserSearch(user, searchTerm)
  }

  /** `filteredUsers`: the users the search matches, in list order and with
      all their copies; never more than the whole list ("Showing X of Y
      users"). */
  function FilteredUsers(users: seq<User>, searchTerm: string): (r: seq<User>)
    ensures |r| <= |users|
    ensures Subsequence(r, users)
    ensures forall u :: u in r <==> u in users && MatchesUserSearch(u, searchTerm)
    ensures forall u :: multiset(r)[u] == if MatchesUserSearch(u, searchTerm) then multiset(users)[u] else 0
  {
    Filter(KeepUser(searchTerm), users)
  }

  /** An empty search term shows every user. */
  lemma EmptySearchKeepsAll(users: seq<User>)
    ensures FilteredUsers(users, "") == users
  {
    forall u | u in users ensures KeepUser("")(u) {
      assert "" <= Lower(u.name)[0..];
    }
    FilterKeepsAll(KeepUser(""), users);
  }

  /** `filteredUsers.map(u => u.id)`. */
  function Ids(users: seq<User>): (r: seq<string>)
    ensures |r| == |users|
    ensures forall k :: 0 <= k < |r| ==> r[k] == users[k].id
  {
    seq(|users|, k requires 0 <= k < |users| => users[k].id)
  }

  /** The callback `id => id !== userId`. */
  function OtherThan(userId: string): string -> bool
  {
    id => id != userId
  }

  /** The new selection after `toggleUserSelection(userId)`: a selected id is
      removed with all its copies, keeping the order of the rest; an
      unselected one is appended. Either way the id flips and no other id
      changes, not even in its number of copies. */
  function Toggled(selected: seq<string>, userId: string): (r: seq<string>)
    ensures userId in r <==> userId !in selected
    ensures forall id :: id != userId ==> (id in r <==> id in selected)
    ensures forall id :: id != userId ==> multiset(r)[id] == multiset(selected)[id]
    ensures multiset(r)[userId] == if userId in selected then 0 else 1
    ensures userId in selected ==> Subsequence(r, selected) && |r| < |selected|
    ensures userId !in selected ==> |r| == |selected| + 1 && r[..|selected|] == selected && r[|selected|] == userId
  {
    if userId in selected then
      assert !OtherThan(userId)(userId);
      FilterDropsRejected(OtherThan(userId), selected, userId);
      Filter(OtherThan(userId), selected)
    else
      selected + [userId]
  }

  /** Ticking an unticked row and then unticking it restores the selection. */
  lemma ToggleTwiceRestores(selected: seq<string>, userId: string)
    requires userId !in selected
    ensures Toggled(Toggled(selected, userId), userId) == selected
  {
    var p := OtherThan(userId);
    FilterAppend(p, selected, [userId]);
    FilterKeepsAll(p, selected);
    assert Filter(p, [userId]) == [] by {
      assert [userId][1..] == [];
    }
  }

  /** Unticking a ticked row and ticking it again moves the id to the end. */
  lemma ToggleTwiceMovesToEnd(selected: seq<string>, userId: string)
    requires userId in selected
    ensures Toggled(Toggled(selected, userId), userId) == Filter(OtherThan(userId), selected) + [userId]
  {
  }

  /** Toggling never puts a second copy of an id into a selection without
      copies. */
  lemma TogglePreservesNoDuplicates(selected: seq<string>, userId: string)
    requires NoDuplicates(selected)
    ensures NoDuplicates(Toggled(selected, userId))
  {
    if userId in selected {
      FilterNoDuplicates(OtherThan(userId), selected);
    } else {
      var r := selected + [userId];
      forall i, j | 0 <= i < j < |r| ensures r[i] != r[j] {
        if j < |selected| {
          assert r[i] == selected[i] && r[j] == selected[j];
        } else {
          assert r[i] == selected[i] && r[j] == userId;
        }
      }
    }
  }

  /** The new selection after `selectAllUsers`: cleared when it is as long as
      the visible list, otherwise every visible id in table order. */
  function SelectAll(selected: seq<string>, filtered: seq<User>): (r: seq<string>)
    ensures |selected| == |filtered| ==> r == []
    ensures |selected| != |filtered| ==>
      |r| == |filtered| && forall k :: 0 <= k < |r| ==> r[k] == filtered[k].id
  {
    if |selected| == |filtered| then [] else Ids(filtered)
  }

  /** The header checkbox: as many ticked ids as visible rows, and at least
      one visible row. */
  predicate HeaderChecked(selected: seq<string>, filtered: seq<User>)
  {
    |selected| == |filtered| && |filtered| > 0
  }

  /** With some row visible, clicking the header box flips it: it ticks every
      visible row when unchecked and clears the selection when checked. */
  lemma SelectAllFlipsHeader(selected: seq<string>, filtered: seq<User>)
    requires filtered != []
    ensures HeaderChecked(SelectAll(selected, filtered), filtered) <==> !HeaderChecked(selected, filtered)
    ensures !HeaderChecked(selected, filtered) ==>
      forall u :: u in filtered ==> u.id in SelectAll(selected, filtered)
  {
    if !HeaderChecked(selected, filtered) {
      var r := SelectAll(selected, filtered);
      forall u | u in filtered ensures u.id in r {
        var k :| 0 <= k < |filtered| && filtered[k] == u;
        assert r[k] == u.id;
      }
    }
  }

  /** Only lengths are compared: a selection as long as the visible list
      shows the header checked, even when some visible row is not ticked, and
      clicking it clears the selection instead of ticking that row. */
  lemma SameSizeSelectionIsCleared(selected: seq<string>, filtered: seq<User>)
    requires |selected| == |filtered| > 0
    requires exists u :: u in filtered && u.id !in selected
    ensures HeaderChecked(selected, filtered)
    ensures SelectAll(selected, filtered) == []
    ensures exists u :: u in filtered && u.id !in SelectAll(selected, filtered)
  {
  }

  class AdminPage {
    const users: seq<User>
    var searchTerm: string
    var selectedUsers: seq<string>

    constructor (users: seq<User>)
      ensures this.users == users && searchTerm == "" && selectedUsers == []
    {
      this.users := users;
      searchTerm := "";
      selectedUsers := [];
    }

    /** The rows on screen. */
    function Visible(): seq<User>
      reads this
    {
      FilteredUsers(users, searchTerm)
    }

    /** The search box's change handler. */
    method SetSearchTerm(value: string)
      modifies this`searchTerm
      ensures searchTerm == value
    {
      searchTerm := value;
    }

    /** `toggleUserSelection`: the row's id flips in the selection. */
    method ToggleUserSelection(userId: string)
      modifies this`selectedUsers
      ensures selectedUsers == Toggled(old(selectedUsers), userId)
      ensures userId in selectedUsers <==> userId !in old(selectedUsers)
    {
      selectedUsers := Toggled(selectedUsers, userId);
    }

    /** `selectAllUsers`, run from the header checkbox. */
    method SelectAllUsers()
      modifies this`selectedUsers
      ensures selectedUsers == SelectAll(old(selectedUsers), Visible())
    {
      if |selectedUsers| == |Visible()| {
        selectedUsers := [];
      } else {
        selectedUsers := Ids(Visible());
      }
    }
  }
}
