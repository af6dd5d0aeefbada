# CodeBucket view models: load retry and assignee picker

This project models two pieces of sequential logic from the view-model layer of
CodeBucket, an iOS client for Bitbucket. It proves what each piece promises.

- **`LoadableViewModel`** is the base class of every view model that loads a
  resource. Its `LoadCommand` sets `IsLoading` and awaits the abstract `Load()`.
  If that call throws a `WebException`, it retries once after a 100 ms delay.
  A cancellation is swallowed. Any other failure becomes one alert whose text is
  `"The request to load this item did not complete successfuly! "` followed by
  the exception's message. `IsLoading` is reset in a `finally` block. The
  command can execute only while `IsLoading` is false. In the model (`loadable.dfy`,
  module `ViewModels`), `Load()` is a parameter `load: nat -> Outcome`, where
  `load(k)` is how the (k+1)-th call settles. Every observable effect is
  appended to a trace of `Event`s: a call of `Load()`, the delay, an assignment
  of `IsLoading`, an alert, or a debug line.
- **`IssueAssigneeViewModel`** lists the users an issue can be assigned to.
  Its load is a no-op once `_isLoaded` is set. Otherwise it fetches the
  repository. It then collects users from the team members (when the owner's
  type is `"team"`) or from the repository privileges (converted with
  `ConvertUserModel`). A failed collection is tolerated. The owner is
  appended, and the list is reset ordered by username. Each row's `IsSelected`
  says whether its name equals `SelectedValue`. A row's select command toggles
  `SelectedValue`. In the model (`assignee.dfy`, module `Issues`), the three
  client calls are inputs of type `Fetch`, and the culture-sensitive comparer
  behind `OrderBy` is an abstract total preorder `precedes` on usernames.

`wrappers.dfy` holds `Option` (standing for a nullable reference) and `Fetch`
(the value an awaited client call yields, or the exception it throws).

Two details of the code the model keeps:

- A cancellation on the first call is not retried. It propagates at once, like
  every failure that is not a `WebException`.
- `HandleLoadCommand` itself does not check `IsLoading`. Only the command's
  can-execute predicate blocks re-entry, so that is where the guard is
  (`ExecuteLoadCommand`).

## Model

| member | source | states |
|---|---|---|
| `ViewModels.RetryPolicy` | CodeBucket.Core/ViewModels/LoadableViewModel.cs:25-46 | `Load()` runs at most twice, and the one 100 ms delay comes only between the two calls. The second call happens if and only if the first threw a `WebException`. A success on either call ends normally. Any other first failure, cancellation included, propagates at once. After a retry, whatever the second call does is final: a second `WebException` is rethrown, not retried, and a cancellation or other failure propagates unchanged. |
| `ViewModels.LoadableViewModel.LoadResource` | CodeBucket.Core/ViewModels/LoadableViewModel.cs:25-46 | The `while (true)` loop with its `retry` flag settles exactly as `RetryPolicy` says and produces the same calls and delay. |
| `ViewModels.LoadableViewModel.ExecuteLoadResource` | CodeBucket.Core/ViewModels/LoadableViewModel.cs:48-51 | The base class's hook runs the retry loop, with `RetryPolicy`'s outcome and effects. |
| `ViewModels.Report` | CodeBucket.Core/ViewModels/LoadableViewModel.cs:65-74 | The catch clauses add at most one event. A success adds nothing. A cancellation adds only the debug line, the cancel prefix followed by the message. Any other failure adds exactly one alert: the fixed prefix followed by the failure's message. |
| `ViewModels.HandleLoadEvents` | CodeBucket.Core/ViewModels/LoadableViewModel.cs:58-79 | The handler first sets `IsLoading` to true and last sets it to false, with no other assignment in between. Every call of `Load()` and the delay fall inside that span. There is an alert if and only if loading failed with something other than a cancellation. There is at most one alert, and its text is the fixed prefix followed by the failure's message. Right after `IsLoading` is set come exactly the calls and delay of `RetryPolicy`, and none come later: no retry after a success or a non-web first failure, and exactly one retry and two calls after a first `WebException`. Between those and the reset come exactly the events of `Report`: nothing after a success, only the debug line after a cancellation, and the one alert after any other failure. |
| `ViewModels.LoadableViewModel.HandleLoadCommand` | CodeBucket.Core/ViewModels/LoadableViewModel.cs:58-79 | It returns normally on every outcome. `IsLoading` ends false, and the trace grows by exactly `HandleLoadEvents`. |
| `ViewModels.LoadableViewModel.ExecuteLoadCommand` | CodeBucket.Core/ViewModels/LoadableViewModel.cs:53-56 | The command runs the handler if and only if its can-execute predicate `CanExecuteLoad` (`!IsLoading`) holds. When `IsLoading` is true, it changes nothing. |
| `ViewModels.LoadableViewModel.SetIsLoading` | CodeBucket.Core/ViewModels/LoadableViewModel.cs:19-23 | The public setter stores the value and records the assignment. |
| `ViewModels.LoadableViewModel.constructor` | CodeBucket.Core/ViewModels/LoadableViewModel.cs:53-56 | A new view model is not loading, because the `_isLoading` field of line 12 starts false, and has done nothing yet. |
| `Issues.ConvertUserModel` | CodeBucket.Core/ViewModels/Issues/IssueAssigneeViewModel.cs:74-85 | The username is copied unchanged. The display name is the first name, one space, then the last name. The avatar is kept, and the type is null. |
| `Issues.PrivilegeUsers` | CodeBucket.Core/ViewModels/Issues/IssueAssigneeViewModel.cs:59-60 | There is one user per privilege, in order, each being `ConvertUserModel` of that privilege's user. So it keeps the username and carries the display name and avatar as `ConvertUserModel` states. |
| `Issues.Insert` | CodeBucket.Core/ViewModels/Issues/IssueAssigneeViewModel.cs:69 | Inserting a user into a list ordered by username keeps the list ordered and adds exactly that user. |
| `Issues.CollectedUsers` | CodeBucket.Core/ViewModels/Issues/IssueAssigneeViewModel.cs:50-66 | A team owner's users are its fetched members. Anyone else's are the converted users of the fetched privileges. When the call the owner's type picks fails, nobody is collected. An owner is a team when `IsTeam` holds, meaning its type is `"team"` (line 52). |
| `Issues.OrderByUsername` | CodeBucket.Core/ViewModels/Issues/IssueAssigneeViewModel.cs:69 | The result is ordered by username under `precedes` and is a permutation of the input, so duplicates are kept. |
| `Issues.LoadedAssignees` | CodeBucket.Core/ViewModels/Issues/IssueAssigneeViewModel.cs:48-69 | The loaded list is ordered by username. As a multiset, it is the collected users plus the owner. A team's users come from its members, and anyone else's from the repository privileges. When that fetch fails, the list is exactly `[owner]`. |
| `Issues.ItemFor` | CodeBucket.Core/ViewModels/Issues/IssueAssigneeViewModel.cs:89 | A new row takes the user's name and avatar. It starts selected if and only if its name is the current `SelectedValue`. |
| `Issues.ItemsFor` | CodeBucket.Core/ViewModels/Issues/IssueAssigneeViewModel.cs:87-89 | There is one row per user, in order, with the user's name and avatar. A row is selected if and only if its name is `SelectedValue`. |
| `Issues.Toggle` | CodeBucket.Core/ViewModels/Issues/IssueAssigneeViewModel.cs:90 | The value a row's select command writes is the row's name or null. The row's own selection flips: the value is the row's name exactly when the row was unselected. |
| `Issues.IssueAssigneeViewModel.constructor` | CodeBucket.Core/ViewModels/Issues/IssueAssigneeViewModel.cs:30-37 | A new picker is not loaded, lists nobody and selects nothing. |
| `Issues.IssueAssigneeViewModel.Load` | CodeBucket.Core/ViewModels/Issues/IssueAssigneeViewModel.cs:43-71 | Once loaded, loading again makes no call and changes nothing. If the repository fetch fails, the command faults with that message, only the repository call is made, and nothing changes. Otherwise the call that follows depends on the owner's type, the list becomes `LoadedAssignees`, `_isLoaded` becomes true and the selection is kept. The invariant `Valid` is preserved: the rows mirror the users and track `SelectedValue`, and a loaded list is ordered. |
| `Issues.IssueAssigneeViewModel.CollectUsers` | CodeBucket.Core/ViewModels/Issues/IssueAssigneeViewModel.cs:50-66 | The try block makes one call, chosen by the owner's type. For a team owner it takes the team members; for anyone else, the privilege users converted by `ConvertUserModel`. It yields nobody when that call throws. |
| `Issues.IssueAssigneeViewModel.SetSelectedValue` | CodeBucket.Core/ViewModels/Issues/IssueAssigneeViewModel.cs:39-41 | After `SelectedValue` changes, every row's `IsSelected` is recomputed as name-equals-`SelectedValue`. The user list is unchanged. |
| `Issues.IssueAssigneeViewModel.Select` | CodeBucket.Core/ViewModels/Issues/IssueAssigneeViewModel.cs:90 | Selecting an unselected row sets `SelectedValue` to its name. Selecting the selected row sets it to null. Afterwards, exactly the rows with the chosen name are selected, or none. |

## Left out

- Property-change notifications (`RaisePropertyChanged`, `RaiseAndSetIfChanged`), the `MvxCommand` and `ReactiveCommand` machinery, `CreateDerivedCollection`, binding each row's select command to `DismissCommand`, and the `Locator` service lookup are not modelled. The model keeps their effects: field values, list contents, and whether a command runs.
- The network calls (`Repositories.Get`, `Teams.GetMembers` through `AllItems`, `Privileges.GetRepositoryPrivileges`) are inputs. The paging inside `AllItems` is collapsed into a single result.
- `Task.Delay(100)` is a recorded `Delayed(100)` event, not a clock.
- `DisplayAlert(...).ToBackground()` is recorded as an `Alert` event when it is issued. Showing the alert is not modelled.
- The debug line for a cancellation is a `DebugLog` event. The error log line "Unable to load privileges" is not recorded.
- Overrides of `ExecuteLoadResource` in subclasses are not modelled. Only the base class's hook is.
- Concurrent executions are not modelled because the model is sequential. A re-entry while a load is in flight is represented by `ExecuteLoadCommand` with `IsLoading` already true, which the public setter allows.
- Three nulls are modelled as `None`: a null `SelectedValue`, a null `Type` of a user (as a converted 1.0 user has), and a null avatar link, which `item.Links?.Avatar?.Href` can give. Other nulls are not modelled: a null owner, username, privilege user, first name, last name or 1.0 avatar.
- The privilege level of a repository privilege is not modelled, because only its user is used.
- `Issues.OrderByUsername`: states that the result is ordered and a permutation of the input, but not that `OrderBy` is stable. The culture-sensitive comparer is an abstract total preorder.
- CodeBucket.iOS/ViewControllers/Repositories/RepositoryViewController.cs is not part of this model. It is UIKit presentation and binding code.
- BitbucketBrowser/UI/Views/StyledElement.cs is not part of this model. It sets cell styling and does layout arithmetic in floating point.
