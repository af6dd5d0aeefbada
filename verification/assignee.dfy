/**
 * The assignee picker of CodeBucket's issue editor
 * (CodeBucket.Core/ViewModels/Issues/IssueAssigneeViewModel.cs): building
 * the list of users an issue can be assigned to, and toggling the single
 * selected assignee.
 *
 * The three client calls are inputs (`Fetch` values); the culture-sensitive
 * comparer behind `OrderBy` is an abstract total preorder `precedes` on
 * usernames.
 */
module Issues {
  import opened Wrappers

  /** A Bitbucket 2.0 user. `kind` is the account's Type (null for a converted 1.0 user). */
  datatype User = User(username: string, displayName: string, kind: Option<string>, avatar: Option<string>)

  /** A Bitbucket 1.0 user, as the privileges endpoint returns it. */
  datatype UserV1 = UserV1(username: string, firstName: string, lastName: string, avatar: string)

  /** One repository privilege; only its user matters here. */
  datatype Privilege = Privilege(user: UserV1)

  datatype Repository = Repository(owner: User)

  /** An IssueAssigneeItemViewModel: the name, avatar and selection state of one row. */
  datatype Item = Item(name: string, avatar: Option<string>, isSelected: bool)

  /** The client calls the load makes, in order. */
  datatype ClientCall =
    | GetRepository(account: string, slug: string)
    | GetTeamMembers(team: string)
    | GetRepositoryPrivileges(account: string, slug: string)

  /** How the awaited LoadCommand task settles. */
  datatype CommandResult = Done | Faulted(message: string)

  const TeamType := "team"

  /** `precedes` is total and transitive: a comparer that may tie distinct names. */
  ghost predicate TotalPreorder(precedes: (string, string) -> bool) {
    (forall a, b :: precedes(a, b) || precedes(b, a)) &&
    (forall a, b, c :: precedes(a, b) && precedes(b, c) ==> precedes(a, c))
  }

  ghost predicate SortedByUsername(s: seq<User>, precedes: (string, string) -> bool) {
    forall i, j :: 0 <= i < j < |s| ==> precedes(s[i].username, s[j].username)
  }

  /** ConvertUserModel: a 1.0 user as a 2.0 user. */
  function ConvertUserModel(user: UserV1): (r: User)
    ensures r.username == user.username
    ensures |r.displayName| == |user.firstName| + 1 + |user.lastName|
    ensures r.displayName[..|user.firstName|] == user.firstName
    ensures r.displayName[|user.firstName|] == ' '
    ensures r.displayName[|user.firstName| + 1..] == user.lastName
    ensures r.kind == None && r.avatar == Some(user.avatar)
  {
    User(user.username, user.firstName + " " + user.lastName, None, Some(user.avatar))
  }

  /** `privileges.Select(x => ConvertUserModel(x.User))`. */
  function PrivilegeUsers(privileges: seq<Privilege>): (r: seq<User>)
    ensures |r| == |privileges|
    ensures forall i :: 0 <= i < |r| ==> r[i] == ConvertUserModel(privileges[i].user)
  {
    seq(|privileges|, i requires 0 <= i < |privileges| => ConvertUserModel(privileges[i].user))
  }

  predicate IsTeam(owner: User) {
    owner.kind == Some(TeamType)
  }

  /** The member or privilege call the owner's type picks threw. */
  predicate CollectionFailed(owner: User, members: Fetch<seq<User>>, privileges: Fetch<seq<Privilege>>) {
    if IsTeam(owner) then members.FetchFailed? else privileges.FetchFailed?
  }

  /** The users the try block collects: nothing when the call it makes fails. */
  function CollectedUsers(owner: User, members: Fetch<seq<User>>, privileges: Fetch<seq<Privilege>>): (r: seq<User>)
    // a team's users are its members
    ensures IsTeam(owner) && members.Fetched? ==> r == members.value
    // anyone else's are the users of the repository privileges
    ensures !IsTeam(owner) && privileges.Fetched? ==> r == PrivilegeUsers(privileges.value)
    // a failed call is swallowed: nobody is collected
    ensures CollectionFailed(owner, members, privileges) ==> r == []
  {
    if IsTeam(owner) then
      (match members case Fetched(ms) => ms case FetchFailed(_) => [])
    else
      (match privileges case Fetched(ps) => PrivilegeUsers(ps) case FetchFailed(_) => [])
  }

  /** Every user in `s` has a name that `name` precedes. */
  ghost predicate AllAfter(name: string, s: seq<User>, precedes: (string, string) -> bool) {
    forall k :: 0 <= k < |s| ==> precedes(name, s[k].username)
  }

  lemma AllAfterPermutation(name: string, a: seq<User>, b: seq<User>, precedes: (string, string) -> bool)
    requires AllAfter(name, a, precedes) && multiset(a) == multiset(b)
    ensures AllAfter(name, b, precedes)
  {
    forall k | 0 <= k < |b|
      ensures precedes(name, b[k].username)
    {
      assert b[k] in multiset(a);
      var j :| 0 <= j < |a| && a[j] == b[k];
    }
  }

  /** Inserts `u` before the first user it precedes. */
  function Insert(u: User, s: seq<User>, precedes: (string, string) -> bool): (r: seq<User>)
    requires TotalPreorder(precedes) && SortedByUsername(s, precedes)
    ensures SortedByUsername(r, precedes)
    ensures multiset(r) == multiset(s) + multiset{u}
  {
    if s == [] then [u]
    else if precedes(u.username, s[0].username) then [u] + s
    else
      var rest := Insert(u, s[1..], precedes);
      assert AllAfter(s[0].username, s[1..] + [u], precedes);
      assert multiset(s[1..] + [u]) == multiset(rest);
      AllAfterPermutation(s[0].username, s[1..] + [u], rest, precedes);
      assert s == [s[0]] + s[1..];
      [s[0]] + rest
  }

  /** `OrderBy(x => x.Username)`, as an insertion sort under `precedes`. */
  function OrderByUsername(users: seq<User>, precedes: (string, string) -> bool): (r: seq<User>)
    requires TotalPreorder(precedes)
    ensures SortedByUsername(r, precedes)
    ensures multiset(r) == multiset(users)
  {
    if users == [] then []
    else
      assert users == [users[0]] + users[1..];
      Insert(users[0], OrderByUsername(users[1..], precedes), precedes)
  }

  /**
   * The assignee list a completed load leaves behind: the collected users
   * and the repository owner, duplicates kept, ordered by username.
   */
  function LoadedAssignees(owner: User, members: Fetch<seq<User>>, privileges: Fetch<seq<Privilege>>,
                           precedes: (string, string) -> bool): (r: seq<User>)
    requires TotalPreorder(precedes)
    ensures SortedByUsername(r, precedes)
    ensures multiset(r) == multiset(CollectedUsers(owner, members, privileges)) + multiset{owner}
    ensures owner in r
    // a team's list comes from its members, anyone else's from the repository privileges
    ensures IsTeam(owner) && members.Fetched? ==> multiset(r) == multiset(members.value) + multiset{owner}
    ensures !IsTeam(owner) && privileges.Fetched? ==>
              multiset(r) == multiset(PrivilegeUsers(privileges.value)) + multiset{owner}
    // a failed member or privilege fetch still yields the owner alone
    ensures CollectionFailed(owner, members, privileges) ==> r == [owner]
  {
    var r := OrderByUsername(CollectedUsers(owner, members, privileges) + [owner], precedes);
    assert owner in multiset(r);
    assert CollectionFailed(owner, members, privileges) ==> |r| == |multiset(r)| == 1 && r[0] in multiset(r);
    r
  }

  /** CreateItemViewModel: a row for `u`, selected when its name is SelectedValue. */
  function ItemFor(u: User, selectedValue: Option<string>): (r: Item)
    ensures r.name == u.username && r.avatar == u.avatar
    ensures r.isSelected <==> selectedValue == Some(r.name)
  {
    Item(u.username, u.avatar, selectedValue == Some(u.username))
  }

  /** The derived collection: one row per assignee, in order. */
  function ItemsFor(users: seq<User>, selectedValue: Option<string>): (r: seq<Item>)
    ensures |r| == |users|
    ensures forall i :: 0 <= i < |r| ==> r[i].name == users[i].username
    ensures forall i :: 0 <= i < |r| ==> r[i].avatar == users[i].avatar
    ensures forall i :: 0 <= i < |r| ==> (r[i].isSelected <==> selectedValue == Some(r[i].name))
  {
    seq(|users|, i requires 0 <= i < |users| => ItemFor(users[i], selectedValue))
  }

  /** The value a row's select command writes to SelectedValue: its name, or null when it was selected. */
  function Toggle(item: Item): (r: Option<string>)
    // the row's own selection flips
    ensures r == Some(item.name) <==> !item.isSelected
    // the selection is this row's name or nothing
    ensures r == None || r == Some(item.name)
  {
    if !item.isSelected then Some(item.name) else None
  }

  class IssueAssigneeViewModel {
    /** The repository's account name and slug, given at construction. */
    const username: string
    const repository: string
    /** The comparer OrderBy uses. */
    const precedes: (string, string) -> bool

    var isLoaded: bool
    /** The ReactiveList of users behind Assignees. */
    var assignees: seq<User>
    var selectedValue: Option<string>
    /** Assignees: the row view models derived from `assignees`. */
    var items: seq<Item>

    /**
     * The rows mirror the users one for one, and every row's IsSelected
     * says whether its name is SelectedValue; a loaded list is ordered, and
     * nothing is listed before the load.
     */
    ghost predicate Valid()
      reads this
    {
      TotalPreorder(precedes) &&
      items == ItemsFor(assignees, selectedValue) &&
      (isLoaded ==> SortedByUsername(assignees, precedes)) &&
      (!isLoaded ==> assignees == [])
    }

    constructor (username: string, repository: string, precedes: (string, string) -> bool)
      requires TotalPreorder(precedes)
      ensures Valid()
      ensures this.username == username && this.repository == repository && this.precedes == precedes
      ensures !isLoaded && assignees == [] && items == [] && selectedValue == None
    {
      this.username := username;
      this.repository := repository;
      this.precedes := precedes;
      isLoaded := false;
      assignees := [];
      selectedValue := None;
      items := [];
    }

    /**
     * The LoadCommand body. `repo` is what Repositories.Get yields; `members`
     * and `privileges` what the team-members and privileges calls yield (only
     * the one the owner's type picks is made).
     */
    method Load(repo: Fetch<Repository>, members: Fetch<seq<User>>, privileges: Fetch<seq<Privilege>>)
        returns (result: CommandResult, calls: seq<ClientCall>)
      requires Valid()
      modifies this
      ensures Valid()
      // once loaded, loading again does nothing
      ensures old(isLoaded) ==> result == Done && calls == [] && unchanged(this)
      // a failed repository fetch faults the command and changes nothing
      ensures !old(isLoaded) && repo.FetchFailed? ==>
                result == Faulted(repo.message) && calls == [GetRepository(username, repository)] && unchanged(this)
      ensures !old(isLoaded) && repo.Fetched? ==>
                && result == Done
                && calls == [GetRepository(username, repository),
                             if IsTeam(repo.value.owner) then GetTeamMembers(username)
                             else GetRepositoryPrivileges(username, repository)]
                && isLoaded
                && assignees == LoadedAssignees(repo.value.owner, members, privileges, precedes)
                && selectedValue == old(selectedValue)
    {
      if isLoaded {
        return Done, [];
      }
      calls := [GetRepository(username, repository)];
      if repo.FetchFailed? {
        return Faulted(repo.message), calls;
      }
      var owner := repo.value.owner;
      var users, call := CollectUsers(owner, members, privileges);
      calls := calls + [call];
      users := users + [owner];
      assignees := OrderByUsername(users, precedes);
      items := ItemsFor(assignees, selectedValue);
      isLoaded := true;
      result := Done;
      assert SortedByUsername(assignees, precedes);
    }

    /**
     * The try block of the load: the team members of a team owner, the
     * converted privilege users of anyone else, and nobody when that call
     * throws (the exception is only logged).
     */
    method CollectUsers(owner: User, members: Fetch<seq<User>>, privileges: Fetch<seq<Privilege>>)
        returns (users: seq<User>, call: ClientCall)
      ensures users == CollectedUsers(owner, members, privileges)
      ensures call == if IsTeam(owner) then GetTeamMembers(username) else GetRepositoryPrivileges(username, repository)
    {
      users := [];
      if owner.kind == Some(TeamType) {
        call := GetTeamMembers(username);
        match members {
          case Fetched(ms) => users := users + ms;
          case FetchFailed(_) =>
        }
      } else {
        call := GetRepositoryPrivileges(username, repository);
        match privileges {
          case Fetched(ps) => users := users + PrivilegeUsers(ps);
          case FetchFailed(_) =>
        }
      }
    }

    /**
     * The SelectedValue setter and its subscription: when the value changes,
     * every row's IsSelected is recomputed.
     */
    method SetSelectedValue(value: Option<string>)
      requires Valid()
      modifies this
      ensures Valid()
      ensures selectedValue == value
      ensures isLoaded == old(isLoaded) && assignees == old(assignees)
    {
      if value == selectedValue {
        return;
      }
      selectedValue := value;
      var k := 0;
      while k < |items|
        invariant 0 <= k <= |items| == |assignees|
        invariant forall i :: 0 <= i < k ==> items[i] == ItemFor(assignees[i], selectedValue)
        invariant forall i :: k <= i < |items| ==>
                    items[i].name == assignees[i].username && items[i].avatar == assignees[i].avatar
        invariant isLoaded == old(isLoaded) && assignees == old(assignees) && selectedValue == value
      {
        items := items[k := items[k].(isSelected := Some(items[k].name) == selectedValue)];
        k := k + 1;
      }
      assert items == ItemsFor(assignees, selectedValue);
    }

    /**
     * Row `index`'s select command: an unselected row becomes the selection,
     * the selected one clears it; afterwards exactly the rows with that name
     * are selected, or none.
     */
    method Select(index: nat)
      requires Valid() && index < |items|
      modifies this
      ensures Valid()
      ensures !old(items[index].isSelected) ==> selectedValue == Some(old(items[index].name))
      ensures old(items[index].isSelected) ==> selectedValue == None
      ensures isLoaded == old(isLoaded) && assignees == old(assignees)
      ensures forall i :: 0 <= i < |items| ==>
                (items[i].isSelected <==> !old(items[index].isSelected) && items[i].name == old(items[index].name))
    {
      SetSelectedValue(Toggle(items[index]));
    }
  }
}
