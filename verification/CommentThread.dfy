/**
 * Replies on the public board attach to the top-level comment of their thread, which is found by
 * walking up from the comment answered.
 */
module CommentThread {
  import opened Options

  type Id = nat

  datatype Comment = Comment(tenant: Id, post: Id, parent: Option<Id>)

  type Comments = map<Id, Comment>

  /** The row the walk reads next, if the comment has a parent that is in the workspace. */
  function Above(comments: Comments, tenant: Id, c: Id): Option<Id> {
    if c in comments && comments[c].parent.Some? && comments[c].parent.value in comments
       && comments[comments[c].parent.value].tenant == tenant
    then comments[c].parent else None
  }

  function Up(comments: Comments, tenant: Id, c: Id, steps: nat): Option<Id>
    decreases steps
  {
    if steps == 0 then Some(c) else
    var p := Above(comments, tenant, c);
    if p.None? then None else Up(comments, tenant, p.value, steps - 1)
  }

  /** Nothing is above it: it has no parent, or its parent is not there. */
  predicate IsTop(comments: Comments, tenant: Id, c: Id) {
    Above(comments, tenant, c).None?
  }

  /** A comment is on top when it has no parent, or its parent is gone or of another workspace. */
  lemma TopExactly(comments: Comments, tenant: Id, c: Id)
    requires c in comments
    ensures IsTop(comments, tenant, c)
      <==> match comments[c].parent
           case None => true
           case Some(p) => p !in comments || comments[p].tenant != tenant
    ensures !IsTop(comments, tenant, c) ==> Up(comments, tenant, c, 1) == comments[c].parent
  {
    if !IsTop(comments, tenant, c) {
      assert Up(comments, tenant, comments[c].parent.value, 0) == comments[c].parent;
    }
  }

  ghost predicate IsTopOf(comments: Comments, tenant: Id, top: Id, c: Id) {
    IsTop(comments, tenant, top) && exists k: nat :: Up(comments, tenant, c, k) == Some(top)
  }

  lemma {:induction false} UpAdds(comments: Comments, tenant: Id, c: Id, i: nat, j: nat)
    ensures Up(comments, tenant, c, i + j)
            == (var mid := Up(comments, tenant, c, i); if mid.None? then None else Up(comments, tenant, mid.value, j))
    decreases i
  {
    if i > 0 {
      var p := Above(comments, tenant, c);
      if p.Some? {
        UpAdds(comments, tenant, p.value, i - 1, j);
      }
    }
  }

  /** Nothing is above a top. */
  lemma PastTop(comments: Comments, tenant: Id, c: Id, k: nat, m: nat)
    requires Up(comments, tenant, c, k).Some? && IsTop(comments, tenant, Up(comments, tenant, c, k).value) && k < m
    ensures Up(comments, tenant, c, m).None?
  {
    UpAdds(comments, tenant, c, k, m - k);
  }

  /** A thread has one top at most. */
  lemma TopIsUnique(comments: Comments, tenant: Id, c: Id, top: Id, other: Id)
    requires IsTopOf(comments, tenant, top, c) && IsTopOf(comments, tenant, other, c)
    ensures top == other
  {
    var k: nat :| Up(comments, tenant, c, k) == Some(top);
    var m: nat :| Up(comments, tenant, c, m) == Some(other);
    if k < m {
      PastTop(comments, tenant, c, k, m);
    } else if m < k {
      PastTop(comments, tenant, c, m, k);
    }
  }

  /** From a comment on a cycle no top is reached. */
  lemma {:induction false} CycleHasNoTop(comments: Comments, tenant: Id, c: Id, around: nat, m: nat)
    requires around > 0 && Up(comments, tenant, c, around) == Some(c)
    ensures Up(comments, tenant, c, m).Some? && !IsTop(comments, tenant, Up(comments, tenant, c, m).value)
    decreases m
  {
    if m < around {
      UpAdds(comments, tenant, c, m, around - m);
    } else {
      UpAdds(comments, tenant, c, around, m - around);
      CycleHasNoTop(comments, tenant, c, around, m - around);
    }
  }

  /** Nor from one that leads to a cycle. */
  lemma LeadsToCycle(comments: Comments, tenant: Id, c: Id, i: nat, k: nat, top: Id)
    requires i < k && Up(comments, tenant, c, i).Some? && Up(comments, tenant, c, i) == Up(comments, tenant, c, k)
    ensures !IsTopOf(comments, tenant, top, c)
  {
    var turn := Up(comments, tenant, c, i).value;
    UpAdds(comments, tenant, c, i, k - i);
    if IsTopOf(comments, tenant, top, c) {
      var m: nat :| Up(comments, tenant, c, m) == Some(top);
      if m < i {
        PastTop(comments, tenant, c, m, i);
      } else {
        UpAdds(comments, tenant, c, i, m - i);
        CycleHasNoTop(comments, tenant, turn, k - i, m - i);
      }
    }
  }

  /**
   * The walk: ends on every graph of parents, at an ancestor of the start, and at the thread's top whenever it
   * has one.
   */
  method FindRoot(comments: Comments, tenant: Id, start: Id) returns (root: Id)
    requires start in comments
    ensures comments[start].tenant == tenant ==> root in comments && comments[root].tenant == tenant
    ensures root in comments && exists k: nat :: Up(comments, tenant, start, k) == Some(root)
    ensures forall top: Id :: IsTopOf(comments, tenant, top, start) ==> root == top
    ensures (exists top: Id :: IsTopOf(comments, tenant, top, start)) <==> IsTop(comments, tenant, root)
  {
    var current, seen: set<Id> := start, {};
    ghost var k: nat, trail: map<Id, nat> := 0, map[];
    while comments[current].parent.Some? && current !in seen
      invariant current in comments && Up(comments, tenant, start, k) == Some(current)
      invariant comments[start].tenant == tenant ==> comments[current].tenant == tenant
      invariant seen <= comments.Keys && trail.Keys == seen
      invariant forall x :: x in seen ==> trail[x] < k && Up(comments, tenant, start, trail[x]) == Some(x)
      decreases comments.Keys - seen
    {
      var up := Above(comments, tenant, current);
      if up.None? {
        break;
      }
      seen, trail := seen + {current}, trail[current := k];
      UpAdds(comments, tenant, start, k, 1);
      assert Up(comments, tenant, current, 1) == Up(comments, tenant, up.value, 0);
      current, k := up.value, k + 1;
    }
    root := current;
    if IsTop(comments, tenant, root) {
      assert IsTopOf(comments, tenant, root, start);
      forall top: Id | IsTopOf(comments, tenant, top, start) {
        TopIsUnique(comments, tenant, start, top, root);
      }
    } else {
      forall top: Id {
        LeadsToCycle(comments, tenant, start, trail[root], k, top);
      }
    }
  }

  // ----- two levels

  /** A comment of this post that answers none. */
  predicate OpensThread(comments: Comments, tenant: Id, post: Id, c: Id) {
    c in comments && comments[c] == Comment(tenant, post, None)
  }

  /** Every reply answers a top-level comment of its own post. */
  ghost predicate TwoLevels(comments: Comments) {
    forall c :: c in comments && comments[c].parent.Some? ==>
      OpensThread(comments, comments[c].tenant, comments[c].post, comments[c].parent.value)
  }

  /** A new comment keeps the threads two levels deep exactly when it opens a thread or answers a comment that does. */
  lemma InsertKeepsLevelsExactly(comments: Comments, id: Id, c: Comment)
    requires TwoLevels(comments) && id !in comments
    ensures TwoLevels(comments[id := c])
            <==> (c.parent.Some? ==> OpensThread(comments, c.tenant, c.post, c.parent.value))
  {
    var t := comments[id := c];
    forall d | d in comments && comments[d].parent.Some?
      ensures OpensThread(t, t[d].tenant, t[d].post, t[d].parent.value)
    {
      assert OpensThread(comments, comments[d].tenant, comments[d].post, comments[d].parent.value);
    }
    if TwoLevels(t) && c.parent.Some? {
      assert OpensThread(t, t[id].tenant, t[id].post, t[id].parent.value);
    }
  }

  /** In two-level threads the comment above a comment is the top of its thread, on the same post. */
  lemma TopOfTwoLevels(comments: Comments, tenant: Id, post: Id, c: Id)
    requires TwoLevels(comments) && c in comments && comments[c].tenant == tenant && comments[c].post == post
    ensures var top := if comments[c].parent.Some? then comments[c].parent.value else c;
      OpensThread(comments, tenant, post, top) && IsTopOf(comments, tenant, top, c)
  {
    if comments[c].parent.Some? {
      var top := comments[c].parent.value;
      assert OpensThread(comments, tenant, post, top);
      assert Up(comments, tenant, c, 1) == Up(comments, tenant, top, 0);
    } else {
      assert Up(comments, tenant, c, 0) == Some(c);
    }
  }

  datatype Reply = Created(parent: Option<Id>) | CommentNotFound

  class Board {
    var comments: Comments

    constructor ()
      ensures comments == map[]
    {
      comments := map[];
    }

    /** A comment on a post, answering `parent` if one is given; the new row's id is `id`. */
    method CreatePublicComment(tenant: Id, post: Id, parent: Option<Id>, id: Id) returns (reply: Reply)
      requires id !in comments
      modifies this
      ensures reply == CommentNotFound <==>
        parent.Some? && !(parent.value in old(comments) && old(comments)[parent.value].tenant == tenant
                          && old(comments)[parent.value].post == post)
      ensures comments == if reply.Created? then old(comments)[id := Comment(tenant, post, reply.parent)]
                          else old(comments)
      ensures reply.Created? ==> (reply.parent.Some? <==> parent.Some?)
      ensures reply.Created? && parent.Some? ==>
        reply.parent.value in old(comments) && old(comments)[reply.parent.value].tenant == tenant
      ensures reply.Created? && parent.Some? ==>
        forall top: Id :: IsTopOf(old(comments), tenant, top, parent.value) ==> reply.parent == Some(top)
      ensures TwoLevels(old(comments)) ==> TwoLevels(comments)
    {
      var root: Option<Id> := None;
      if parent.Some? {
        if parent.value !in comments || comments[parent.value].tenant != tenant || comments[parent.value].post != post {
          return CommentNotFound;
        }
        var r := FindRoot(comments, tenant, parent.value);
        root := Some(r);
      }
      ghost var before := comments;
      comments := comments[id := Comment(tenant, post, root)];
      reply := Created(root);
      if TwoLevels(before) {
        if parent.Some? {
          TopOfTwoLevels(before, tenant, post, parent.value);
        }
        InsertKeepsLevelsExactly(before, id, Comment(tenant, post, root));
      }
    }
  }
}
