/**
  The authorization gate of a small blogging service's HTTP handlers
  (views.py), over an in-memory picture of the two tables it touches:
  `users` (id -> row with a status) and `post` (id -> row with an author and
  an `author_seen` timestamp).

  The store's `fetchone`/`fetchall`/`exec` become reads and writes of two
  maps held by the class `Store`; the session's user id and the value of
  `now()` are parameters of the methods that need them.
 */
module Views {

  datatype Option<T> = None | Some(value: T)

  /** A Python call either returns a value or raises one of `Error`. */
  datatype Result<T> = Success(value: T) | Failure(error: Error)

  datatype Error =
    | Forbidden        // the caller's status is not in the allow-list
    | NoneHasNoStatus  // `.status` read on the empty result of the user lookup (AttributeError)
    | NoneNotIterable  // `for` over the empty result of the post-id lookup (TypeError)

  type UserId = int
  type PostId = int
  type Time = int  // an opaque timestamp, as the store's `now()` yields it

  datatype User = User(firstName: string, lastName: string, email: string,
                       password: string, status: string, created: Time)

  datatype Post = Post(authorId: UserId, title: string, content: string,
                       created: Time, authorSeen: Option<Time>)

  type Users = map<UserId, User>
  type Posts = map<PostId, Post>

  /** The statuses allowed past the gate. */
  const A: seq<string> := ["active", "on_review"]

  // ---------------------------------------------------------------------
  // Status lookup and the gate's decision
  // ---------------------------------------------------------------------

  /** `select_user_status`: the status of the caller's row. A missing row,
      and the anonymous caller (`id = NULL` matches no row), make the store
      return nothing, and reading `.status` on it raises. */
  function SelectUserStatus(users: Users, userId: Option<UserId>): (r: Result<string>)
    ensures r.Success? <==> userId.Some? && userId.value in users
    ensures r.Success? ==> r.value == users[userId.value].status
    ensures !(userId.Some? && userId.value in users) ==> r == Failure(NoneHasNoStatus)
  {
    if userId.Some? && userId.value in users then Success(users[userId.value].status)
    else Failure(NoneHasNoStatus)
  }

  datatype Verdict = Denied(error: Error) | Allowed

  /** How the gate decides, before any bookkeeping: the status lookup's
      error is propagated, a status outside `A` is `Forbidden`. */
  function Decide(users: Users, sessionUserId: Option<UserId>): (v: Verdict)
    ensures v == Allowed <==>
      sessionUserId.Some? && sessionUserId.value in users &&
      users[sessionUserId.value].status in {"active", "on_review"}
    ensures v == Denied(Forbidden) <==>
      sessionUserId.Some? && sessionUserId.value in users &&
      users[sessionUserId.value].status !in {"active", "on_review"}
    ensures v == Denied(NoneHasNoStatus) <==>
      sessionUserId.None? || sessionUserId.value !in users
  {
    match SelectUserStatus(users, sessionUserId)
    case Failure(e) => Denied(e)
    case Success(status) => if status !in A then Denied(Forbidden) else Allowed
  }

  // ---------------------------------------------------------------------
  // The `post` table and the effect of the bookkeeping statements on it
  // ---------------------------------------------------------------------

  /** Whether `uid` has written any post, that is `AuthoredBy(posts, uid) != {}`;
      stated with `exists` so that it supplies the witness a `:|` needs. */
  predicate HasPosts(posts: Posts, uid: UserId) {
    exists pid :: pid in posts && posts[pid].authorId == uid
  }

  /** Ids of the posts whose author is `uid`. */
  function AuthoredBy(posts: Posts, uid: UserId): (ids: set<PostId>)
    ensures ids <= posts.Keys
  {
    set pid | pid in posts && posts[pid].authorId == uid
  }

  /** An author with a post has a non-empty id set. */
  lemma HasPostsIsAuthored(posts: Posts, uid: UserId)
    ensures HasPosts(posts, uid) ==> AuthoredBy(posts, uid) != {}
  {
    if HasPosts(posts, uid) {
      var pid :| pid in posts && posts[pid].authorId == uid;
      assert pid in AuthoredBy(posts, uid);
    }
  }

  /** A post row once its author has been seen at `now`. */
  function Seen(p: Post, now: Time): Post {
    p.(authorSeen := Some(now))
  }

  /** `update post set author_seen = now() where id = $1`: the row with that
      id, if there is one, is seen; nothing else changes. */
  function SetSeen(posts: Posts, pid: PostId, now: Time): (r: Posts)
    ensures r.Keys == posts.Keys
  {
    if pid in posts then posts[pid := Seen(posts[pid], now)] else posts
  }

  /** One bulk update: every row whose id is in `ids` is seen at `now`. */
  function Touched(posts: Posts, ids: set<PostId>, now: Time): (r: Posts)
    ensures r.Keys == posts.Keys
  {
    map pid | pid in posts :: if pid in ids then Seen(posts[pid], now) else posts[pid]
  }

  /** The effect of running the per-row update once for each id of `ids`,
      first to last. */
  function ExecEach(posts: Posts, ids: seq<PostId>, now: Time): (r: Posts)
    ensures r.Keys == posts.Keys
    decreases |ids|
  {
    if |ids| == 0 then posts
    else SetSeen(ExecEach(posts, ids[..|ids| - 1], now), ids[|ids| - 1], now)
  }

  function Elems(ids: seq<PostId>): set<PostId> {
    set pid | pid in ids
  }

  /** `after` differs from `before` only in `author_seen`, only on posts
      written by `uid`, and only by setting it to `now`. */
  ghost predicate OnlyCallersPostsSeen(before: Posts, after: Posts, uid: UserId, now: Time) {
    before.Keys == after.Keys &&
    forall pid :: pid in before ==>
      pid in after &&
      (after[pid] == before[pid] ||
       (before[pid].authorId == uid && after[pid] == Seen(before[pid], now)))
  }

  lemma TouchedNothing(posts: Posts, now: Time)
    ensures Touched(posts, {}, now) == posts
  {
    var t := Touched(posts, {}, now);
    assert forall pid :: pid in posts ==> t[pid] == posts[pid];
  }

  lemma TouchOneMore(posts: Posts, ids: set<PostId>, pid: PostId, now: Time)
    ensures SetSeen(Touched(posts, ids, now), pid, now) == Touched(posts, ids + {pid}, now)
  {
    var lhs := SetSeen(Touched(posts, ids, now), pid, now);
    var rhs := Touched(posts, ids + {pid}, now);
    assert lhs.Keys == rhs.Keys;
    forall q | q in lhs ensures lhs[q] == rhs[q] {
      if q == pid {
        assert lhs[q] == Seen(Touched(posts, ids, now)[q], now);
      }
    }
  }

  /** Issuing the per-row updates one by one, in any order and with
      repetitions, has the effect of a single bulk update over the same ids. */
  lemma {:induction false} ExecEachIsBulk(posts: Posts, ids: seq<PostId>, now: Time)
    ensures ExecEach(posts, ids, now) == Touched(posts, Elems(ids), now)
    decreases |ids|
  {
    if |ids| == 0 {
      assert Elems(ids) == {};
      TouchedNothing(posts, now);
    } else {
      var init, last := ids[..|ids| - 1], ids[|ids| - 1];
      ExecEachIsBulk(posts, init, now);
      assert Elems(ids) == Elems(init) + {last} by {
        assert ids == init + [last];
      }
      TouchOneMore(posts, Elems(init), last, now);
    }
  }

  /** A bulk update restricted to the caller's posts changes nothing else. */
  lemma TouchedAuthoredIsCallers(posts: Posts, ids: set<PostId>, uid: UserId, now: Time)
    requires ids <= AuthoredBy(posts, uid)
    ensures OnlyCallersPostsSeen(posts, Touched(posts, ids, now), uid, now)
  {
    var t := Touched(posts, ids, now);
    forall pid | pid in posts
      ensures t[pid] == posts[pid] || (posts[pid].authorId == uid && t[pid] == Seen(posts[pid], now))
    {
      if pid in ids {
        assert pid in AuthoredBy(posts, uid);
      }
    }
  }

  // ---------------------------------------------------------------------
  // Specifications of the bookkeeping and of the gate
  // ---------------------------------------------------------------------

  /** What `update_last_seen(uid)` may do as written: `fetchone` yields the
      first row of the author's posts in the store's (unspecified) order, or
      nothing; `for pid in` that one-column row updates that one post; and
      `for pid in None` raises. */
  ghost predicate LastSeenAsWritten(before: Posts, uid: UserId, now: Time, after: Posts, r: Result<()>) {
    if !HasPosts(before, uid) then
      r == Failure(NoneNotIterable) && after == before
    else
      r == Success(()) &&
      exists pid :: pid in before && before[pid].authorId == uid && after == Touched(before, {pid}, now)
  }

  /** Whatever the row `fetchone` picks, bookkeeping as written touches only
      the caller's posts, and at most one of them. */
  lemma AsWrittenSeenOnlyCallersPosts(before: Posts, uid: UserId, now: Time, after: Posts, r: Result<()>)
    requires LastSeenAsWritten(before, uid, now, after, r)
    ensures OnlyCallersPostsSeen(before, after, uid, now)
    ensures forall p, q :: p in before && q in before && after[p] != before[p] && after[q] != before[q] ==> p == q
  {
    if HasPosts(before, uid) {
      var pid :| pid in before && before[pid].authorId == uid && after == Touched(before, {pid}, now);
      TouchedAuthoredIsCallers(before, {pid}, uid, now);
    }
  }

  /** The tables and outcome the gate (steps 1 to 3 of the wrapper) can
      leave behind: the decision, then bookkeeping only for a present
      caller. */
  ghost predicate GateOutcome(users: Users, before: Posts, sessionUserId: Option<UserId>,
                              now: Time, after: Posts, r: Result<()>)
  {
    match Decide(users, sessionUserId)
    case Denied(e) => r == Failure(e) && after == before
    case Allowed =>
      if sessionUserId.Some? then LastSeenAsWritten(before, sessionUserId.value, now, after, r)
      else r == Success(()) && after == before
  }

  /** A call that fails, whether denied, unresolvable or failing in
      bookkeeping, leaves every post as it was; otherwise only the
      caller's posts can have been seen, and an anonymous caller never gets
      through. */
  lemma GateTouchesOnlyCallersPosts(users: Users, before: Posts, sessionUserId: Option<UserId>,
                                    now: Time, after: Posts, r: Result<()>)
    requires GateOutcome(users, before, sessionUserId, now, after, r)
    ensures r.Failure? ==> after == before
    ensures r.Success? ==> sessionUserId.Some? && Decide(users, sessionUserId) == Allowed
    ensures after == before ||
            (sessionUserId.Some? && OnlyCallersPostsSeen(before, after, sessionUserId.value, now))
  {
    if Decide(users, sessionUserId) == Allowed && sessionUserId.Some? {
      AsWrittenSeenOnlyCallersPosts(before, sessionUserId.value, now, after, r);
    }
  }

  /** Bookkeeping as written does not do what it is evidently meant to:
      when the author has two posts not yet seen at `now`, no outcome sees
      them all; and for an author with no post it raises instead of doing
      nothing. */
  lemma FetchOneMissesPosts(before: Posts, uid: UserId, now: Time, after: Posts, r: Result<()>,
                            p: PostId, q: PostId)
    requires p != q && p in before && q in before
    requires before[p].authorId == uid && before[q].authorId == uid
    requires before[p].authorSeen != Some(now) && before[q].authorSeen != Some(now)
    requires LastSeenAsWritten(before, uid, now, after, r)
    ensures r.Success? && after != Touched(before, AuthoredBy(before, uid), now)
    ensures forall t: Posts, after': Posts, r': Result<()> ::
      AuthoredBy(t, uid) == {} && LastSeenAsWritten(t, uid, now, after', r') ==>
        r' == Failure(NoneNotIterable) && after' == t
  {
    forall t: Posts, after': Posts, r': Result<()> |
      AuthoredBy(t, uid) == {} && LastSeenAsWritten(t, uid, now, after', r')
      ensures r' == Failure(NoneNotIterable) && after' == t
    {
      HasPostsIsAuthored(t, uid);
    }
    assert HasPosts(before, uid) by { assert before[p].authorId == uid; }
    var pid :| pid in before && before[pid].authorId == uid && after == Touched(before, {pid}, now);
    var other := if pid == p then q else p;
    assert after[other] == before[other];
    assert other in AuthoredBy(before, uid);
    assert Touched(before, AuthoredBy(before, uid), now)[other].authorSeen == Some(now);
  }

  // ---------------------------------------------------------------------
  // The store, the gate and the gated handlers that change it
  // ---------------------------------------------------------------------

  class Store {
    var users: Users
    var posts: Posts

    constructor (users: Users, posts: Posts)
      ensures this.users == users && this.posts == posts
    {
      this.users := users;
      this.posts := posts;
    }

    /** `update_last_seen` as written: one `exec` per value of the row
        `fetchone` returned, which is the id of one post of the author. */
    method UpdateLastSeen(userId: UserId, now: Time) returns (r: Result<()>)
      modifies this
      ensures users == old(users)
      ensures LastSeenAsWritten(old(posts), userId, now, posts, r)
      ensures OnlyCallersPostsSeen(old(posts), posts, userId, now)
    {
      if !HasPosts(posts, userId) {
        // `for pid in None`
        r := Failure(NoneNotIterable);
        AsWrittenSeenOnlyCallersPosts(old(posts), userId, now, posts, r);
        return;
      }
      var first :| first in posts && posts[first].authorId == userId;
      var postIds := [first];
      var i := 0;
      while i < |postIds|
        invariant 0 <= i <= |postIds|
        invariant users == old(users)
        invariant posts == ExecEach(old(posts), postIds[..i], now)
      {
        assert postIds[..i + 1][..i] == postIds[..i];
        posts := SetSeen(posts, postIds[i], now);
        i := i + 1;
      }
      assert postIds[..i] == postIds;
      ExecEachIsBulk(old(posts), postIds, now);
      assert Elems(postIds) == {first};
      r := Success(());
      AsWrittenSeenOnlyCallersPosts(old(posts), userId, now, posts, r);
    }

    /** `update_last_seen` as evidently intended: one statement
        `update post set author_seen = now() where author_id = $1`, which
        sees every post of the author and no other, and does nothing for an
        author without posts. */
    method UpdateLastSeenAll(userId: UserId, now: Time)
      modifies this
      ensures users == old(users)
      ensures OnlyCallersPostsSeen(old(posts), posts, userId, now)
      ensures forall pid :: pid in old(posts) && old(posts)[pid].authorId == userId ==>
        pid in posts && posts[pid] == Seen(old(posts)[pid], now)
    {
      TouchedAuthoredIsCallers(posts, AuthoredBy(posts, userId), userId, now);
      posts := Touched(posts, AuthoredBy(posts, userId), now);
    }

    /** Steps 1 to 3 of the gate: read the session's user id, reject a
        status outside `A`, and run bookkeeping when a user id is present.
        An error of the status lookup or of bookkeeping propagates. */
    method Admit(sessionUserId: Option<UserId>, now: Time) returns (r: Result<()>)
      modifies this
      ensures users == old(users)
      ensures GateOutcome(old(users), old(posts), sessionUserId, now, posts, r)
    {
      var status := SelectUserStatus(users, sessionUserId);
      if status.Failure? {
        return Failure(status.error);
      }
      if status.value !in A {
        return Failure(Forbidden);
      }
      r := Success(());
      if sessionUserId.Some? {
        r := UpdateLastSeen(sessionUserId.value, now);
      }
    }

    /** The `wrapper` of `allow_good_status_only`. As written the decorator
        takes no operation and never returns `wrapper`; this is the wrapper
        it evidently means: the gate, then the wrapped operation `func` on
        the original positional arguments, over the tables as bookkeeping
        left them, with its result passed back unchanged. */
    method Wrapper<Args, R>(sessionUserId: Option<UserId>, now: Time,
                            func: (Users, Posts, Args) -> R, args: Args) returns (r: Result<R>)
      modifies this
      ensures users == old(users)
      ensures r.Failure? ==> GateOutcome(old(users), old(posts), sessionUserId, now, posts, Failure(r.error))
      ensures r.Success? ==> GateOutcome(old(users), old(posts), sessionUserId, now, posts, Success(()))
      ensures r.Success? ==> r.value == func(users, posts, args)
    {
      var admitted := Admit(sessionUserId, now);
      if admitted.Failure? {
        return Failure(admitted.error);
      }
      r := Success(func(users, posts, args));
    }

    /** `view_delete_own_post` behind the gate, as written:
        `delete from post where id = $1`, with no check of the author. */
    method ViewDeleteOwnPost(sessionUserId: Option<UserId>, now: Time, postId: PostId) returns (r: Result<()>)
      modifies this
      ensures users == old(users)
      ensures r.Failure? ==> GateOutcome(old(users), old(posts), sessionUserId, now, posts, r)
      ensures r.Success? ==> exists seen: Posts :: GateOutcome(old(users), old(posts), sessionUserId, now, seen, r) &&
                                           posts == seen - {postId}
      ensures r.Success? ==> posts.Keys == old(posts).Keys - {postId}
    {
      r := Admit(sessionUserId, now);
      if r.Failure? {
        return;
      }
      ghost var seen := posts;
      posts := posts - {postId};
      assert GateOutcome(old(users), old(posts), sessionUserId, now, seen, r) && posts == seen - {postId};
    }

    /** `view_delete_own_post` as evidently intended:
        `delete from post where id = $1 and author_id = $2`, so that only
        the caller's own post can go. */
    method ViewDeleteOwnPostChecked(sessionUserId: Option<UserId>, now: Time, postId: PostId) returns (r: Result<()>)
      modifies this
      ensures users == old(users)
      ensures r.Failure? ==> GateOutcome(old(users), old(posts), sessionUserId, now, posts, r)
      ensures r.Success? ==> sessionUserId.Some?
      ensures r.Success? ==>
        exists seen: Posts ::
          && GateOutcome(old(users), old(posts), sessionUserId, now, seen, r)
          && posts == if postId in seen && seen[postId].authorId == sessionUserId.value then seen - {postId} else seen
      ensures forall pid :: pid in old(posts) && (sessionUserId.None? || old(posts)[pid].authorId != sessionUserId.value) ==>
        pid in posts
    {
      r := Admit(sessionUserId, now);
      GateTouchesOnlyCallersPosts(old(users), old(posts), sessionUserId, now, posts, r);
      if r.Failure? {
        return;
      }
      ghost var seen := posts;
      var caller := sessionUserId.value;
      if postId in posts && posts[postId].authorId == caller {
        posts := posts - {postId};
      }
      assert GateOutcome(old(users), old(posts), sessionUserId, now, seen, r);
    }

    /** `view_delete_account` behind the gate: `delete from users where
        id = $1` for the session's user, who is present once the gate has
        let the call through. */
    method ViewDeleteAccount(sessionUserId: Option<UserId>, now: Time) returns (r: Result<()>)
      modifies this
      ensures GateOutcome(old(users), old(posts), sessionUserId, now, posts, r)
      ensures r.Failure? ==> users == old(users)
      ensures r.Success? ==> sessionUserId.Some? && sessionUserId.value in old(users) &&
                             users == old(users) - {sessionUserId.value}
    {
      r := Admit(sessionUserId, now);
      GateTouchesOnlyCallersPosts(old(users), old(posts), sessionUserId, now, posts, r);
      if r.Failure? {
        return;
      }
      users := users - {sessionUserId.value};
    }
  }

  // ---------------------------------------------------------------------
  // Concrete calls through the gate
  // ---------------------------------------------------------------------

  function Alice(status: string): User {
    User("Alice", "Smith", "alice@example.org", "secret", status, 0)
  }

  /** Session user 7 is active and wrote post 42: reading post 42 through
      the gate returns it and sees post 42 at `now`. With status `banned`
      the call is `Forbidden` and post 42 is left as it was. */
  method ReadOwnPostScenario(now: Time) {
    var post := Post(7, "Hello", "First post", 1, None);
    var readTitle := (u: Users, p: Posts, id: PostId) => if id in p then p[id].title else "";

    var store := new Store(map[7 := Alice("active")], map[42 := post]);
    var r := store.Wrapper(Some(7), now, readTitle, 42);
    assert r.Success? && r.value == "Hello";
    assert store.posts[42] == Seen(post, now);

    var banned := new Store(map[7 := Alice("banned")], map[42 := post]);
    assert "banned" !in A;
    r := banned.Wrapper(Some(7), now, readTitle, 42);
    assert r == Failure(Forbidden) && banned.posts == map[42 := post];

    var anonymous := new Store(map[7 := Alice("active")], map[42 := post]);
    r := anonymous.Wrapper(None, now, readTitle, 42);
    assert r == Failure(NoneHasNoStatus) && anonymous.posts == map[42 := post];
  }

  /** An active user who has not written a post yet cannot get through the
      gate as written: bookkeeping raises before the wrapped operation. */
  method FirstPostScenario(now: Time) {
    var store := new Store(map[7 := Alice("active")], map[]);
    var r := store.Admit(Some(7), now);
    assert r == Failure(NoneNotIterable);
  }

  /** Through `/delete-my-post`, active user 7 deletes post 2 of user 8;
      the checked deletion leaves it in place. */
  method OthersPostScenario(now: Time) {
    var tables := map[1 := Post(7, "mine", "", 0, None), 2 := Post(8, "theirs", "", 0, None)];
    assert HasPosts(tables, 7) by { assert tables[1].authorId == 7; }
    var store := new Store(map[7 := Alice("active")], tables);
    var r := store.ViewDeleteOwnPost(Some(7), now, 2);
    assert r.Success? && 2 !in store.posts;

    var checked := new Store(map[7 := Alice("active")], tables);
    r := checked.ViewDeleteOwnPostChecked(Some(7), now, 2);
    assert 2 in checked.posts;
  }
}
