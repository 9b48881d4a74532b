# Authorization gate of the blog handlers, in Dafny

`views.py` holds the HTTP handlers of a small blogging service. Most of them
are wired to a shared gate, the `wrapper` inside `allow_good_status_only`.
The gate reads the caller's `user_id` from the session and looks up the
caller's status in the `users` table. It raises `Forbidden` unless the status
is in the allow-list `A = ['active', 'on_review']`. Then, for a present
caller, it runs the bookkeeping step `update_last_seen`, which sets
`author_seen` on the caller's posts in the `post` table. Only after that
does it call the wrapped handler.

`views.dfy` (module `Views`) models this gate over an in-memory picture of
the two tables:

- `Store` is a class holding `users: map<UserId, User>` and
  `posts: map<PostId, Post>`. The store's `fetchone`, `fetchall` and `exec`
  become reads of these maps and reassignments of them.
- The session's `user_id` (an `Option`) and the value of the store's `now()`
  are method parameters.
- Python exceptions are the `Failure` side of a `Result`:
  - `Forbidden`;
  - `NoneHasNoStatus`, the `AttributeError` raised by `.status` on the empty
    result of the user lookup;
  - `NoneNotIterable`, the `TypeError` raised by `for pid in None`.
- The gate's decision is the pure function `Decide`. The tables and outcome
  it may leave behind are the predicate `GateOutcome`. `Store.Admit`
  (check, then bookkeeping) and `Store.Wrapper` (then the call) are proved
  against them.
- The wrapped handler is a function value `func(users, posts, args)`. It is
  applied to the tables that bookkeeping left behind, so its result shows
  that bookkeeping finished before it ran.
- `fetchone` without `ORDER BY` returns a row chosen by the store. The model
  treats that row as unspecified: `UpdateLastSeen` picks it with `:|`, and
  `LastSeenAsWritten` allows any post of the author.

As written, views.py behaves as follows:

- An anonymous caller, or a session user with no row, makes the gate raise
  `AttributeError`. It does not get `Forbidden`.
- Bookkeeping sets `author_seen` on at most one post, because it uses
  `fetchone`. For an author with no posts it raises `TypeError`.
- `/delete-my-post` does not check who wrote the post it deletes.

The first two items are proved in the contracts. The last two also appear
under "## Findings".

## Model

| member | source | states |
|---|---|---|
| `Views.SelectUserStatus` | views.py:37-39 | The status is returned exactly when the session holds a user id that has a row, and it is that row's status. An anonymous caller or a missing row raises `NoneHasNoStatus`. |
| `Views.Decide` | views.py:50-52 | The gate lets a call through exactly when the caller has a row whose status is `active` or `on_review` (the list `A` of views.py:34). It is `Forbidden` exactly when the caller has a row with any other status. The lookup error happens exactly when there is no user id or no row. |
| `Views.AuthoredBy` | views.py:43 | The post ids the author query selects are ids present in the `post` table. |
| `Views.SetSeen` | views.py:45 | The per-row `update ... where id = $1` neither adds nor removes a post. |
| `Views.Touched` | views.py:44-45 | A bulk `author_seen` update neither adds nor removes a post. |
| `Views.ExecEach` | views.py:44-45 | Running the per-row update once per id keeps the set of post ids. |
| `Views.ExecEachIsBulk` | views.py:44-45 | Running the per-row updates one after another, in any order and with repeated ids, equals one bulk update over the set of those ids. |
| `Views.TouchedAuthoredIsCallers` | views.py:43-45 | A bulk update over ids of the caller's posts changes only `author_seen`, only on the caller's posts, and only to `now`. |
| `Views.AsWrittenSeenOnlyCallersPosts` | views.py:42-45 | Whichever row `fetchone` returns, bookkeeping as written changes only `author_seen`, only on the caller's posts, and on at most one post. |
| `Views.GateTouchesOnlyCallersPosts` | views.py:50-55 | A call that fails in any way (`Forbidden`, an unresolvable caller, or a bookkeeping error) leaves every post unchanged. A call that gets through has a present caller and an allowed status. Any change to `post` is a bookkeeping change to the caller's posts. |
| `Views.FetchOneMissesPosts` | views.py:43-44 | For any table and any author with two distinct posts not yet seen at `now`, every run of the bookkeeping as written succeeds but leaves one of them unseen, so it never equals marking all the author's posts. For any table in which the author has no posts it raises `NoneNotIterable` and leaves the table unchanged. |
| `Views.Store.UpdateLastSeen` | views.py:42-45 | Models the code as written. With no post by the user it raises `NoneNotIterable` and changes nothing. Otherwise it sets `author_seen` on one of the user's posts, through a loop of per-row updates. `users` is not changed. |
| `Views.Store.UpdateLastSeenAll` | views.py:42-45 | The corrected bookkeeping. Every post of the user gets `author_seen = now`, and no other post or field changes. |
| `Views.Store.Admit` | views.py:50-55 | Implements `GateOutcome`. The status lookup's error, or `Forbidden`, leaves both tables unchanged. Otherwise bookkeeping as written runs for the session user, and its error propagates. |
| `Views.Store.Wrapper` | views.py:48-57 | The gate, then the wrapped operation. The operation's result comes back unchanged only when the gate let the call through. It is computed from the original arguments and the tables after bookkeeping. `users` is not changed. |
| `Views.Store.ViewDeleteOwnPost` | views.py:113-117 | Behind the gate, it removes the post with the given id whoever wrote it. It keeps every other post as bookkeeping left it. |
| `Views.Store.ViewDeleteOwnPostChecked` | views.py:113-117 | The corrected delete. Behind the gate, it removes the post only when the caller wrote it. No post by another author is ever removed. |
| `Views.Store.ViewDeleteAccount` | views.py:149-153 | Behind the gate, it removes exactly the session user's row from `users`. That user is present whenever the call succeeds. A failed call leaves `users` unchanged. |

## Left out

- The decorator itself: `allow_good_status_only` takes no function and never returns `wrapper` (views.py:48-57). Used as a decorator, it fails before any handler exists. The model gives the wrapper it evidently means.
- Store failures (`QueryError`, `ConstraintViolation`) are not modelled: every `exec` and `fetch` succeeds. So a bookkeeping loop cut short, and a foreign-key refusal when deleting a user who still has posts, are not captured. The schema behind either is not part of this model.
- Store.Wrapper: keyword arguments are dropped, as `func(*args)` drops them. The wrapped operation is a pure function of the tables and its positional arguments. Handlers that write through the wrapper are modelled as their own gated methods (`ViewDeleteOwnPost`, `ViewDeleteAccount`).
- HTTP routing, `Request`, `Route`, and path and form extraction (views.py:20-33) are external plumbing.
- JSON response building and the `result`/`res` envelopes (views.py:74, 87-97, 110, 117, 146, 153) are serialization.
- `view_index`, `view_post`, `view_create`, `view_account_own_info` and `view_create_account` issue SQL whose joins, aliases and `max` are not table logic modelled here. That includes the `%`-interpolated query of `view_post` (views.py:85) and the placeholder/argument mismatch of `view_create` (views.py:106-108). Both are query-text defects and are noted, not modelled.
- CSV export through `pandas` (views.py:124) is a call into a library that is not part of this model.
- `now()` is an opaque `Time` parameter. The model has no clock.
- A user's `status` is a non-null string. A NULL status, as `view_create_account` would leave without a column default, is not modelled; Python would deny it as `Forbidden`.
- Races between calls on `author_seen` are out of scope. Each call is modelled as sequential.

## Findings

| source | as written | input that shows it | evidently intended | confidence | as-written member | corrected member |
|---|---|---|---|---|---|---|
| views.py:43-44 | `fetchone` returns one row, a one-column tuple, so the loop updates one post. With no post it returns `None`, and `for pid in None` raises `TypeError`. | Author 7 with posts 1 and 2: one of them stays unseen. An active user with no posts: every gated call fails before the handler runs (`FirstPostScenario`). | Every post of the author gets `author_seen = now`. For an author with no posts, nothing happens. | high (not executed) | `Views.Store.UpdateLastSeen`, `Views.FetchOneMissesPosts` | `Views.Store.UpdateLastSeenAll` |
| views.py:113-116 | `/delete-my-post/<post_id>` runs `delete from post where id = $1` with no author check. | Active user 7 deletes post 2, written by user 8 (`OthersPostScenario`). | Only a post whose `author_id` is the caller is deleted. | medium (not executed) | `Views.Store.ViewDeleteOwnPost` | `Views.Store.ViewDeleteOwnPostChecked` |

The gate (`Store.Admit`) keeps calling the bookkeeping as written, so that it
shows how views.py actually behaves. `Store.UpdateLastSeenAll` is the
drop-in replacement: one statement,
`update post set author_seen = now() where author_id = $1`. It also cannot be
left half-applied.
