/**
 * Erasing an account: an email with one user row per workspace it owns or joined. The purge is one
 * transaction over tables whose foreign keys cascade or restrict.
 */
module AccountPurge {
  import opened Options
  import opened Sets

  type Id = nat

  datatype User = User(email: string, tenant: Option<Id>, owner: bool, platformAdmin: bool)

  datatype Post = Post(tenant: Id, author: Option<Id>)

  datatype Comment = Comment(tenant: Id, post: Id, author: Option<Id>, parent: Option<Id>)

  /** Rows whose creator may not be absent: changelog entries, API keys and file uploads. */
  datatype Kind = Entry | Key | Upload

  datatype Asset = Asset(kind: Kind, tenant: Id, creator: Id)

  /** Tables keyed by the email rather than by a user row. */
  datatype Table = Billing | Session | Reset | Invitation | SocialLogin

  datatype Keyed = Keyed(table: Table, id: Id, email: string, tenant: Option<Id>)

  datatype Db = Db(
    tenants: set<Id>,
    users: map<Id, User>,
    posts: map<Id, Post>,
    comments: map<Id, Comment>,
    assets: map<Id, Asset>,
    keyed: set<Keyed>)

  predicate SameWorkspace(u: User, v: User) {
    u.tenant.Some? && u.tenant == v.tenant
  }

  ghost predicate AuthorsExist(db: Db) {
    forall p :: p in db.posts && db.posts[p].author.Some? ==> db.posts[p].author.value in db.users
  }

  ghost predicate CommentsRefer(db: Db) {
    forall c :: c in db.comments ==>
      && db.comments[c].post in db.posts
      && (db.comments[c].author.Some? ==> db.comments[c].author.value in db.users)
      && (db.comments[c].parent.Some? ==> db.comments[c].parent.value in db.comments)
  }

  ghost predicate CreatorsExist(db: Db) {
    forall a :: a in db.assets ==> db.assets[a].creator in db.users
  }

  ghost predicate OneRowPerWorkspace(db: Db) {
    forall u, v :: u in db.users && v in db.users && u != v && SameWorkspace(db.users[u], db.users[v]) ==>
      db.users[u].email != db.users[v].email
  }

  /** The foreign keys hold, and an email has one row per workspace. */
  ghost predicate Sound(db: Db) {
    AuthorsExist(db) && CommentsRefer(db) && CreatorsExist(db) && OneRowPerWorkspace(db)
  }

  /** A comment's post, and the comment it answers, are of its workspace; no key makes sure of that. */
  ghost predicate ThreadsWithinWorkspaces(db: Db)
    requires CommentsRefer(db)
  {
    forall c :: c in db.comments ==>
      && db.posts[db.comments[c].post].tenant == db.comments[c].tenant
      && (db.comments[c].parent.Some? ==> db.comments[db.comments[c].parent.value].tenant == db.comments[c].tenant)
  }

  // ----- threads

  /** The comment that many replies up, if there is one. */
  function Up(comments: map<Id, Comment>, c: Id, steps: nat): (r: Option<Id>)
    ensures r.Some? ==> c in comments
    decreases steps
  {
    if c !in comments then None
    else if steps == 0 then Some(c)
    else if comments[c].parent.None? then None
    else Up(comments, comments[c].parent.value, steps - 1)
  }

  function Replies(comments: map<Id, Comment>, to: set<Id>): set<Id> {
    set c | c in comments && comments[c].parent.Some? && comments[c].parent.value in to
  }

  /** One round of cascading leaves fewer comments. */
  lemma CascadeShrinks(comments: map<Id, Comment>, gone: set<Id>)
    requires gone <= comments.Keys && gone + Replies(comments, gone) != gone
    ensures |comments.Keys - (gone + Replies(comments, gone))| < |comments.Keys - gone|
  {
    var next := gone + Replies(comments, gone);
    var c :| c in next && c !in gone;
    SubsetSize(comments.Keys - next, comments.Keys - gone - {c});
  }

  /** The comments that ON DELETE CASCADE takes along with these. */
  function Threads(comments: map<Id, Comment>, gone: set<Id>): (r: set<Id>)
    requires gone <= comments.Keys
    ensures gone <= r <= comments.Keys
    ensures r + Replies(comments, r) == r
    decreases |comments.Keys - gone|
  {
    var next := gone + Replies(comments, gone);
    if next == gone then gone else
    CascadeShrinks(comments, gone);
    Threads(comments, next)
  }

  lemma {:induction false} UpOnce(comments: map<Id, Comment>, c: Id, k: nat)
    requires Up(comments, c, k).Some?
    ensures Up(comments, c, k).value in comments
    ensures var p := comments[Up(comments, c, k).value].parent;
      Up(comments, c, k + 1) == if p.Some? && p.value in comments then p else None
    decreases k
  {
    if k == 0 {
      var p := comments[c].parent;
      assert Up(comments, c, 1) == if p.None? then None else Up(comments, p.value, 0);
    } else {
      UpOnce(comments, comments[c].parent.value, k - 1);
    }
  }

  /** In a set closed under replies, whatever has an ancestor there is there. */
  lemma {:induction false} StaysIn(comments: map<Id, Comment>, gone: set<Id>, c: Id, k: nat)
    requires gone + Replies(comments, gone) == gone
    requires Up(comments, c, k).Some? && Up(comments, c, k).value in gone
    ensures c in gone
    decreases k
  {
    if k > 0 {
      StaysIn(comments, gone, comments[c].parent.value, k - 1);
      assert c in Replies(comments, gone);
    }
  }

  /** Each comment taken along has an ancestor that was deleted, or was deleted itself. */
  lemma {:induction false} HasAncestor(comments: map<Id, Comment>, gone: set<Id>, c: Id) returns (k: nat)
    requires gone <= comments.Keys && c in Threads(comments, gone)
    ensures Up(comments, c, k).Some? && Up(comments, c, k).value in gone
    decreases |comments.Keys - gone|
  {
    var next := gone + Replies(comments, gone);
    k := 0;
    if next != gone {
      CascadeShrinks(comments, gone);
      k := HasAncestor(comments, next, c);
      UpOnce(comments, c, k);
      if Up(comments, c, k).value !in gone {
        k := k + 1;
      }
    }
  }

  /** A comment goes exactly when one of its ancestors, or itself, does. */
  lemma ThreadsExactly(comments: map<Id, Comment>, gone: set<Id>, c: Id)
    requires gone <= comments.Keys
    ensures c in Threads(comments, gone)
            <==> exists k: nat :: Up(comments, c, k).Some? && Up(comments, c, k).value in gone
  {
    if c in Threads(comments, gone) {
      var k := HasAncestor(comments, gone, c);
    }
    forall k: nat | Up(comments, c, k).Some? && Up(comments, c, k).value in gone
      ensures c in Threads(comments, gone)
    {
      StaysIn(comments, Threads(comments, gone), c, k);
    }
  }

  /** No smaller set holds the deleted comments and the replies to whatever it holds. */
  lemma {:induction false} ThreadsLeast(comments: map<Id, Comment>, gone: set<Id>, r: set<Id>)
    requires gone <= comments.Keys && gone <= r && r + Replies(comments, r) == r
    ensures Threads(comments, gone) <= r
    decreases |comments.Keys - gone|
  {
    var next := gone + Replies(comments, gone);
    if next != gone {
      CascadeShrinks(comments, gone);
      ThreadsLeast(comments, next, r);
    }
  }

  /** Two deletions one after the other cascade as one. */
  lemma ThreadsTogether(comments: map<Id, Comment>, first: set<Id>, second: set<Id>)
    requires first <= comments.Keys && second <= comments.Keys
    ensures var taken := Threads(comments, first);
            second - taken <= (comments - taken).Keys
            && taken + Threads(comments - taken, second - taken) == Threads(comments, first + second)
  {
    var taken := Threads(comments, first);
    var rest := comments - taken;
    var later := Threads(rest, second - taken);
    var all := Threads(comments, first + second);
    ThreadsLeast(comments, first, all);
    assert Replies(rest, all - taken) <= Replies(comments, all);
    ThreadsLeast(rest, second - taken, all - taken);
    forall c | c in Replies(comments, taken + later)
      ensures c in taken + later
    {
      var p := comments[c].parent.value;
      if p in taken {
        assert c in Replies(comments, taken);
      } else if c !in taken {
        assert c in Replies(rest, later);
      }
    }
    ThreadsLeast(comments, first + second, taken + later);
  }

  // ----- statements

  function UnsignedPosts(posts: map<Id, Post>, who: set<Id>): map<Id, Post> {
    map p | p in posts ::
      if posts[p].author.Some? && posts[p].author.value in who then posts[p].(author := None) else posts[p]
  }

  function UnsignedComments(comments: map<Id, Comment>, who: set<Id>): map<Id, Comment> {
    map c | c in comments ::
      if comments[c].author.Some? && comments[c].author.value in who then comments[c].(author := None) else comments[c]
  }

  function HandedOver(assets: map<Id, Asset>, kind: Kind, from: Id, to: Id): map<Id, Asset> {
    map a | a in assets ::
      if assets[a].kind == kind && assets[a].creator == from then assets[a].(creator := to) else assets[a]
  }

  function By(db: Db, who: set<Id>): set<Id> {
    set c | c in db.comments && db.comments[c].author.Some? && db.comments[c].author.value in who
  }

  predicate IsIn(db: Db, tenants: set<Id>, c: Comment) {
    c.tenant in tenants || (c.post in db.posts && db.posts[c.post].tenant in tenants)
  }

  /** The comments of these workspaces and those on their posts. */
  function In(db: Db, tenants: set<Id>): set<Id> {
    set c | c in db.comments && IsIn(db, tenants, db.comments[c])
  }

  function RowsOf(db: Db, tenants: set<Id>): set<Id> {
    set u | u in db.users && db.users[u].tenant.Some? && db.users[u].tenant.value in tenants
  }

  /** No post or asset outside these workspaces refers to one of these rows, so no RESTRICT stops their deletion. */
  predicate Unreferenced(db: Db, who: set<Id>, tenants: set<Id>) {
    && (forall p :: p in db.posts && db.posts[p].tenant !in tenants && db.posts[p].author.Some? ==>
          db.posts[p].author.value !in who)
    && (forall a :: a in db.assets && db.assets[a].tenant !in tenants ==> db.assets[a].creator !in who)
  }

  /** These workspaces with all they hold, and these user rows, are gone; comments cascade. */
  function Without(db: Db, who: set<Id>, tenants: set<Id>): Db {
    var gone := Threads(db.comments, By(db, who) + In(db, tenants));
    Db(db.tenants - tenants,
       db.users - who,
       map p | p in db.posts && db.posts[p].tenant !in tenants :: db.posts[p],
       db.comments - gone,
       map a | a in db.assets && db.assets[a].tenant !in tenants :: db.assets[a],
       set k | k in db.keyed && !(k.tenant.Some? && k.tenant.value in tenants))
  }

  // ----- the account's rows

  function OwnedBy(db: Db, email: string): set<Id> {
    set u | u in db.users && db.users[u].email == email && db.users[u].owner && db.users[u].tenant.Some?
      :: db.users[u].tenant.value
  }

  function MembershipsOf(db: Db, email: string): set<Id> {
    set u | u in db.users && db.users[u].email == email && !db.users[u].owner && db.users[u].tenant.Some?
  }

  /** Rows that go without being anonymised: everybody in an owned workspace, and the email's rows with no workspace. */
  function Doomed(db: Db, email: string): set<Id> {
    RowsOf(db, OwnedBy(db, email)) + set u | u in db.users && db.users[u].email == email && db.users[u].tenant.None?
  }

  predicate OwnerOf(db: Db, tenant: Option<Id>, u: Id) {
    u in db.users && db.users[u].owner && tenant.Some? && db.users[u].tenant == tenant
  }

  function Owners(db: Db, tenant: Option<Id>): set<Id> {
    set u | u in db.users && OwnerOf(db, tenant, u)
  }

  predicate HasOwner(db: Db, tenant: Option<Id>) {
    Owners(db, tenant) != {}
  }

  // ----- the account after the purge

  /** Each of these rows' workspaces has an owner to take over, or none at all. */
  ghost predicate AreHeirs(db: Db, members: set<Id>, heirs: map<Id, Id>) {
    && heirs.Keys <= members
    && forall m :: m in members && m in db.users ==>
         if m in heirs then OwnerOf(db, db.users[m].tenant, heirs[m]) else !HasOwner(db, db.users[m].tenant)
  }

  function Inherited(assets: map<Id, Asset>, heirs: map<Id, Id>): map<Id, Asset> {
    map a | a in assets ::
      if assets[a].creator in heirs then assets[a].(creator := heirs[assets[a].creator]) else assets[a]
  }

  /** These rows have left their workspaces, their content anonymised or handed over. */
  function AfterLeaving(db: Db, members: set<Id>, heirs: map<Id, Id>): Db {
    db.(users := db.users - members,
        posts := UnsignedPosts(db.posts, members),
        comments := UnsignedComments(db.comments, members),
        assets := Inherited(db.assets, heirs))
  }

  function KeyedElsewhere(keyed: set<Keyed>, email: string): set<Keyed> {
    set k | k in keyed && k.email != email
  }

  function Erased(db: Db, email: string, heirs: map<Id, Id>): Db {
    var t := Without(AfterLeaving(db, MembershipsOf(db, email), heirs), Doomed(db, email), OwnedBy(db, email));
    t.(keyed := KeyedElsewhere(t.keyed, email))
  }

  /** A membership in a workspace with no owner has created nothing that must have a creator. */
  ghost predicate CanLeave(db: Db, m: Id) {
    m in db.users && !HasOwner(db, db.users[m].tenant) ==> forall a :: a in db.assets ==> db.assets[a].creator != m
  }

  ghost predicate CanErase(db: Db, email: string) {
    && (forall m :: m in MembershipsOf(db, email) ==> CanLeave(db, m))
    && Unreferenced(db, Doomed(db, email), OwnedBy(db, email))
  }

  /** The row that takes over is not itself erased. */
  lemma HeirStays(db: Db, email: string, m: Id, heir: Id)
    requires OneRowPerWorkspace(db) && m in MembershipsOf(db, email) && OwnerOf(db, db.users[m].tenant, heir)
    ensures heir !in MembershipsOf(db, email) && heir !in Doomed(db, email)
  {
    assert heir != m && SameWorkspace(db.users[m], db.users[heir]);
    if heir in Doomed(db, email) {
      var o :| o in db.users && db.users[o].email == email && db.users[o].owner
        && db.users[o].tenant == db.users[heir].tenant;
      assert o != m && SameWorkspace(db.users[m], db.users[o]);
    }
  }

  lemma EmailRowsGo(db: Db, email: string, u: Id)
    requires u in db.users && db.users[u].email == email
    ensures u in MembershipsOf(db, email) || u in Doomed(db, email)
  {
    if db.users[u].owner && db.users[u].tenant.Some? {
      assert db.users[u].tenant.value in OwnedBy(db, email);
    }
  }

  lemma CreatorsStay(db: Db, email: string, heirs: map<Id, Id>)
    requires Sound(db) && AreHeirs(db, MembershipsOf(db, email), heirs) && CanErase(db, email)
    ensures CreatorsExist(Erased(db, email, heirs))
  {
    var t := Erased(db, email, heirs);
    forall a | a in t.assets
      ensures t.assets[a].creator in t.users
    {
      var m := db.assets[a].creator;
      if m in MembershipsOf(db, email) {
        assert CanLeave(db, m);
        HeirStays(db, email, m, heirs[m]);
      }
    }
  }

  lemma AuthorsStay(db: Db, email: string, heirs: map<Id, Id>)
    requires Sound(db) && CanErase(db, email)
    ensures AuthorsExist(Erased(db, email, heirs))
  {
  }

  lemma DoomedIsNotLeaving(db: Db, email: string, u: Id)
    requires OneRowPerWorkspace(db) && u in Doomed(db, email)
    ensures u !in MembershipsOf(db, email)
  {
    if u in MembershipsOf(db, email) {
      var o :| o in db.users && db.users[o].email == email && db.users[o].owner
        && db.users[o].tenant == db.users[u].tenant;
      assert o != u && SameWorkspace(db.users[u], db.users[o]);
    }
  }

  /** Anonymising changes no thread. */
  lemma ThreadsUnsigned(comments: map<Id, Comment>, who: set<Id>, gone: set<Id>)
    requires gone <= comments.Keys
    ensures Threads(UnsignedComments(comments, who), gone) == Threads(comments, gone)
  {
    var unsigned := UnsignedComments(comments, who);
    var a, b := Threads(unsigned, gone), Threads(comments, gone);
    assert Replies(unsigned, b) == Replies(comments, b) && Replies(comments, a) == Replies(unsigned, a);
    ThreadsLeast(unsigned, gone, b);
    ThreadsLeast(comments, gone, a);
  }

  /** The comments that go: those in the owned workspaces, those of the rows that go, and the replies to either. */
  function Lost(db: Db, email: string): set<Id> {
    Threads(db.comments, By(db, Doomed(db, email)) + In(db, OwnedBy(db, email)))
  }

  /** Leaving the joined workspaces changes neither the comments by doomed rows nor those in owned workspaces. */
  lemma SameGone(db: Db, email: string, heirs: map<Id, Id>)
    requires OneRowPerWorkspace(db)
    ensures var left := AfterLeaving(db, MembershipsOf(db, email), heirs);
      && By(left, Doomed(db, email)) == By(db, Doomed(db, email))
      && In(left, OwnedBy(db, email)) == In(db, OwnedBy(db, email))
  {
    forall u | u in Doomed(db, email)
      ensures u !in MembershipsOf(db, email)
    {
      DoomedIsNotLeaving(db, email, u);
    }
  }

  lemma CommentsAfter(db: Db, email: string, heirs: map<Id, Id>)
    requires OneRowPerWorkspace(db)
    ensures Erased(db, email, heirs).comments
            == UnsignedComments(db.comments, MembershipsOf(db, email)) - Lost(db, email)
  {
    SameGone(db, email, heirs);
    var gone := By(db, Doomed(db, email)) + In(db, OwnedBy(db, email));
    ThreadsUnsigned(db.comments, MembershipsOf(db, email), gone);
  }

  /** A comment that stays is elsewhere, not by a row that goes, and answers a comment that stays. */
  lemma Survives(db: Db, email: string, c: Id)
    requires c in db.comments && c !in Lost(db, email)
    ensures !IsIn(db, OwnedBy(db, email), db.comments[c])
    ensures db.comments[c].author.Some? ==> db.comments[c].author.value !in Doomed(db, email)
    ensures db.comments[c].parent.Some? ==> db.comments[c].parent.value !in Lost(db, email)
  {
    assert c !in In(db, OwnedBy(db, email)) && c !in By(db, Doomed(db, email));
    assert c !in Replies(db.comments, Lost(db, email));
  }

  lemma ThreadsStay(db: Db, email: string, heirs: map<Id, Id>)
    requires Sound(db)
    ensures CommentsRefer(Erased(db, email, heirs))
  {
    CommentsAfter(db, email, heirs);
    var t := Erased(db, email, heirs);
    forall c | c in t.comments
      ensures var comment := t.comments[c];
        && comment.post in t.posts
        && (comment.author.Some? ==> comment.author.value in t.users)
        && (comment.parent.Some? ==> comment.parent.value in t.comments)
    {
      Survives(db, email, c);
      assert t.comments[c] == db.comments[c].(author := t.comments[c].author);
    }
  }

  /** Nothing is left under the email, and no reference dangles. */
  lemma NothingLeft(db: Db, email: string, heirs: map<Id, Id>)
    requires Sound(db) && AreHeirs(db, MembershipsOf(db, email), heirs) && CanErase(db, email)
    ensures var t := Erased(db, email, heirs);
      && (forall u :: u in t.users ==> t.users[u].email != email)
      && (forall k :: k in t.keyed ==> k.email != email)
      && Sound(t)
  {
    var t := Erased(db, email, heirs);
    forall u | u in t.users
      ensures t.users[u].email != email
    {
      if db.users[u].email == email {
        EmailRowsGo(db, email, u);
      }
    }
    CreatorsStay(db, email, heirs);
    AuthorsStay(db, email, heirs);
    ThreadsStay(db, email, heirs);
  }

  /** Every post, and everything with a creator, in a workspace the account did not own is still there. */
  lemma PostsAndAssetsStay(db: Db, email: string, heirs: map<Id, Id>)
    ensures var t := Erased(db, email, heirs);
      && (forall p :: p in db.posts && db.posts[p].tenant !in OwnedBy(db, email) ==>
            p in t.posts && t.posts[p] == db.posts[p].(author := t.posts[p].author))
      && (forall a :: a in db.assets && db.assets[a].tenant !in OwnedBy(db, email) ==>
            a in t.assets && t.assets[a] == db.assets[a].(creator := t.assets[a].creator))
  {
  }

  /** The author is a row that goes without being anonymised, and the workspace is not one that goes. */
  ghost predicate WrittenAway(db: Db, email: string, c: Id) {
    && c in db.comments && db.comments[c].tenant !in OwnedBy(db, email)
    && db.comments[c].author.Some? && db.comments[c].author.value in Doomed(db, email)
  }

  /** A comment is lost exactly when it, or one it answers, is in an owned workspace or by a row that goes. */
  lemma CommentLostExactly(db: Db, email: string, heirs: map<Id, Id>, c: Id)
    requires OneRowPerWorkspace(db) && c in db.comments
    ensures c !in Erased(db, email, heirs).comments
            <==> exists k: nat :: Up(db.comments, c, k).Some?
                   && Up(db.comments, c, k).value in By(db, Doomed(db, email)) + In(db, OwnedBy(db, email))
  {
    CommentsAfter(db, email, heirs);
    ThreadsExactly(db.comments, By(db, Doomed(db, email)) + In(db, OwnedBy(db, email)), c);
  }

  lemma {:induction false} SameWorkspaceUp(db: Db, c: Id, k: nat)
    requires CommentsRefer(db) && ThreadsWithinWorkspaces(db) && Up(db.comments, c, k).Some?
    ensures c in db.comments && Up(db.comments, c, k).value in db.comments
    ensures db.comments[Up(db.comments, c, k).value].tenant == db.comments[c].tenant
    decreases k
  {
    if k > 0 {
      SameWorkspaceUp(db, db.comments[c].parent.value, k - 1);
    }
  }

  lemma LostElsewhere(db: Db, email: string, c: Id, k: nat)
    requires CommentsRefer(db) && ThreadsWithinWorkspaces(db)
    requires Up(db.comments, c, k).Some? && db.comments[c].tenant !in OwnedBy(db, email)
    requires Up(db.comments, c, k).value in By(db, Doomed(db, email)) + In(db, OwnedBy(db, email))
    ensures WrittenAway(db, email, Up(db.comments, c, k).value)
  {
    SameWorkspaceUp(db, c, k);
  }

  /**
   * Every comment in a workspace that the account did not own is still there exactly when no row that goes with
   * the account or with its workspaces wrote a comment elsewhere.
   */
  lemma CommentsStayExactly(db: Db, email: string, heirs: map<Id, Id>)
    requires Sound(db) && ThreadsWithinWorkspaces(db)
    ensures (forall c :: c in db.comments && db.comments[c].tenant !in OwnedBy(db, email) ==>
              c in Erased(db, email, heirs).comments)
            <==> !exists c :: WrittenAway(db, email, c)
  {
    forall c | WrittenAway(db, email, c)
      ensures c !in Erased(db, email, heirs).comments
    {
      CommentLostExactly(db, email, heirs, c);
      assert Up(db.comments, c, 0) == Some(c);
    }
    forall c | c in db.comments && db.comments[c].tenant !in OwnedBy(db, email)
              && c !in Erased(db, email, heirs).comments
      ensures exists d :: WrittenAway(db, email, d)
    {
      CommentLostExactly(db, email, heirs, c);
      var gone := By(db, Doomed(db, email)) + In(db, OwnedBy(db, email));
      var k: nat :| Up(db.comments, c, k).Some? && Up(db.comments, c, k).value in gone;
      LostElsewhere(db, email, c, k);
    }
  }

  /** Workspace 1 is owned by "ann"; "bob", its member, commented on the board of workspace 2. */
  function GuestOfAnotherBoard(): Db {
    Db({1, 2},
       map[10 := User("ann", Some(1), true, false), 11 := User("bob", Some(1), false, false),
           20 := User("cat", Some(2), true, false)],
       map[5 := Post(2, Some(20))],
       map[7 := Comment(2, 5, Some(11), None)],
       map[],
       {})
  }

  lemma GuestIsSound()
    ensures Sound(GuestOfAnotherBoard()) && CanErase(GuestOfAnotherBoard(), "ann")
    ensures OwnedBy(GuestOfAnotherBoard(), "ann") == {1} && 11 in Doomed(GuestOfAnotherBoard(), "ann")
  {
    var db := GuestOfAnotherBoard();
    assert 10 in db.users && 1 in OwnedBy(db, "ann");
  }

  /** Erasing "ann" succeeds and takes bob's comment on somebody else's board with it. */
  lemma CommentElsewhereIsLost(heirs: map<Id, Id>)
    ensures var db := GuestOfAnotherBoard();
      CanErase(db, "ann") && 7 in db.comments && 2 !in OwnedBy(db, "ann") && 7 !in Erased(db, "ann", heirs).comments
  {
    var db := GuestOfAnotherBoard();
    GuestIsSound();
    assert 7 in By(db, Doomed(db, "ann")) && Up(db.comments, 7, 0) == Some(7);
    CommentLostExactly(db, "ann", heirs, 7);
  }

  // ----- what is left, table by table

  /** The account owns this workspace. */
  ghost predicate Owned(db: Db, email: string, tenant: Id) {
    exists u :: u in db.users && db.users[u].email == email && db.users[u].owner && db.users[u].tenant == Some(tenant)
  }

  lemma OwnedExactly(db: Db, email: string, tenant: Id)
    ensures tenant in OwnedBy(db, email) <==> Owned(db, email, tenant)
  {
  }

  /** Exactly the workspaces of others are left. */
  ghost predicate TenantsLeft(db: Db, email: string, t: Db) {
    forall w :: w in t.tenants <==> w in db.tenants && !Owned(db, email, w)
  }

  /** Exactly the rows of others outside the owned workspaces are left, unchanged. */
  ghost predicate UsersLeft(db: Db, email: string, t: Db) {
    && (forall u :: u in t.users <==>
          u in db.users && db.users[u].email != email
          && (db.users[u].tenant.Some? ==> !Owned(db, email, db.users[u].tenant.value)))
    && (forall u :: u in t.users ==> t.users[u] == db.users[u])
  }

  /** Exactly the rows of other emails outside the owned workspaces are left in the tables keyed by email. */
  ghost predicate KeyedLeft(db: Db, email: string, t: Db) {
    forall k :: k in t.keyed <==>
      k in db.keyed && k.email != email && (k.tenant.Some? ==> !Owned(db, email, k.tenant.value))
  }

  predicate IsBy(db: Db, author: Option<Id>, email: string) {
    author.Some? && author.value in db.users && db.users[author.value].email == email
  }

  /** Exactly the posts of other workspaces are left, those of the account without their author. */
  ghost predicate PostsLeft(db: Db, email: string, t: Db) {
    && (forall p :: p in t.posts <==> p in db.posts && !Owned(db, email, db.posts[p].tenant))
    && (forall p :: p in t.posts ==>
          t.posts[p] == if IsBy(db, db.posts[p].author, email) then db.posts[p].(author := None) else db.posts[p])
  }

  /** A comment that is left has lost no more than its author, and that only if the account wrote it. */
  ghost predicate CommentsLeft(db: Db, email: string, t: Db) {
    forall c :: c in t.comments ==>
      && c in db.comments
      && t.comments[c] == if IsBy(db, db.comments[c].author, email)
                          then db.comments[c].(author := None) else db.comments[c]
  }

  /** Exactly the assets of other workspaces are left; the account's own belong to an owner of the workspace now. */
  ghost predicate AssetsLeft(db: Db, email: string, t: Db)
    requires CreatorsExist(db)
  {
    && (forall a :: a in t.assets <==> a in db.assets && !Owned(db, email, db.assets[a].tenant))
    && (forall a :: a in t.assets ==>
          && t.assets[a] == db.assets[a].(creator := t.assets[a].creator) && t.assets[a].creator in t.users
          && (if db.users[db.assets[a].creator].email == email
              then t.users[t.assets[a].creator].owner
                   && t.users[t.assets[a].creator].tenant == db.users[db.assets[a].creator].tenant
              else t.assets[a].creator == db.assets[a].creator))
  }

  lemma TenantsAndKeyedLeft(db: Db, email: string, heirs: map<Id, Id>)
    ensures TenantsLeft(db, email, Erased(db, email, heirs)) && KeyedLeft(db, email, Erased(db, email, heirs))
  {
    forall w
      ensures w in OwnedBy(db, email) <==> Owned(db, email, w)
    {
      OwnedExactly(db, email, w);
    }
  }

  lemma OthersLeft(db: Db, email: string, heirs: map<Id, Id>)
    ensures UsersLeft(db, email, Erased(db, email, heirs))
  {
    forall u | u in db.users
      ensures u in Erased(db, email, heirs).users
              <==> db.users[u].email != email
                   && (db.users[u].tenant.Some? ==> !Owned(db, email, db.users[u].tenant.value))
    {
      if db.users[u].tenant.Some? {
        OwnedExactly(db, email, db.users[u].tenant.value);
      }
      if db.users[u].email == email {
        EmailRowsGo(db, email, u);
      }
    }
  }

  /** A row of the account either leaves its workspace or is doomed, and others' rows do not leave. */
  lemma ByMembersExactly(db: Db, email: string, author: Option<Id>)
    requires author.Some? && author.value in db.users && author.value !in Doomed(db, email)
    ensures author.value in MembershipsOf(db, email) <==> IsBy(db, author, email)
  {
    if db.users[author.value].email == email {
      EmailRowsGo(db, email, author.value);
    }
  }

  lemma PostsOfOthersLeft(db: Db, email: string, heirs: map<Id, Id>)
    requires AuthorsExist(db) && CanErase(db, email)
    ensures PostsLeft(db, email, Erased(db, email, heirs))
  {
    forall p | p in db.posts
      ensures db.posts[p].tenant in OwnedBy(db, email) <==> Owned(db, email, db.posts[p].tenant)
    {
      OwnedExactly(db, email, db.posts[p].tenant);
    }
    forall p | p in db.posts && db.posts[p].tenant !in OwnedBy(db, email) && db.posts[p].author.Some?
      ensures db.posts[p].author.value in MembershipsOf(db, email) <==> IsBy(db, db.posts[p].author, email)
    {
      ByMembersExactly(db, email, db.posts[p].author);
    }
  }

  lemma CommentsAreUnsigned(db: Db, email: string, heirs: map<Id, Id>)
    requires Sound(db)
    ensures CommentsLeft(db, email, Erased(db, email, heirs))
  {
    CommentsAfter(db, email, heirs);
    var t := Erased(db, email, heirs);
    forall c | c in t.comments
      ensures t.comments[c] == if IsBy(db, db.comments[c].author, email)
                               then db.comments[c].(author := None) else db.comments[c]
    {
      Survives(db, email, c);
      if db.comments[c].author.Some? {
        ByMembersExactly(db, email, db.comments[c].author);
      }
    }
  }

  lemma AssetsElsewhereLeft(db: Db, email: string, heirs: map<Id, Id>)
    ensures forall a :: a in Erased(db, email, heirs).assets
                    <==> a in db.assets && !Owned(db, email, db.assets[a].tenant)
  {
    forall a | a in db.assets
      ensures db.assets[a].tenant in OwnedBy(db, email) <==> Owned(db, email, db.assets[a].tenant)
    {
      OwnedExactly(db, email, db.assets[a].tenant);
    }
  }

  lemma AssetHandedOver(db: Db, email: string, heirs: map<Id, Id>, a: Id)
    requires Sound(db) && AreHeirs(db, MembershipsOf(db, email), heirs) && CanErase(db, email)
    requires a in Erased(db, email, heirs).assets
    ensures var t, was := Erased(db, email, heirs), db.assets[a].creator;
      var now := t.assets[a].creator;
      && now in t.users && t.assets[a] == db.assets[a].(creator := now)
      && (if db.users[was].email == email
          then t.users[now].owner && t.users[now].tenant == db.users[was].tenant else now == was)
  {
    CreatorsStay(db, email, heirs);
    var m := db.assets[a].creator;
    ByMembersExactly(db, email, Some(m));
    if m in MembershipsOf(db, email) {
      assert CanLeave(db, m);
      assert OwnerOf(db, db.users[m].tenant, heirs[m]);
    }
  }

  lemma AssetsHandedOver(db: Db, email: string, heirs: map<Id, Id>)
    requires Sound(db) && AreHeirs(db, MembershipsOf(db, email), heirs) && CanErase(db, email)
    ensures AssetsLeft(db, email, Erased(db, email, heirs))
  {
    AssetsElsewhereLeft(db, email, heirs);
    forall a | a in Erased(db, email, heirs).assets {
      AssetHandedOver(db, email, heirs, a);
    }
  }

  /** What a purge leaves of every table. */
  lemma LeftAfterPurge(db: Db, email: string, heirs: map<Id, Id>)
    requires Sound(db) && AreHeirs(db, MembershipsOf(db, email), heirs) && CanErase(db, email)
    ensures var t := Erased(db, email, heirs);
      && TenantsLeft(db, email, t) && UsersLeft(db, email, t) && KeyedLeft(db, email, t) && PostsLeft(db, email, t)
      && CommentsLeft(db, email, t) && AssetsLeft(db, email, t) && Sound(t)
  {
    TenantsAndKeyedLeft(db, email, heirs);
    OthersLeft(db, email, heirs);
    PostsOfOthersLeft(db, email, heirs);
    CommentsAreUnsigned(db, email, heirs);
    AssetsHandedOver(db, email, heirs);
    NothingLeft(db, email, heirs);
  }

  /** An upload, key or entry is made by a row of its own workspace; no key makes sure of that. */
  ghost predicate CreatedWithinWorkspaces(db: Db) {
    forall a :: a in db.assets && db.assets[a].creator in db.users ==>
      db.users[db.assets[a].creator].tenant == Some(db.assets[a].tenant)
  }

  /**
   * The purge is possible exactly when nothing that stays would be left without the author or creator it names: no
   * more is refused than must be.
   */
  lemma ErasableExactly(db: Db, email: string, heirs: map<Id, Id>)
    requires Sound(db) && CreatedWithinWorkspaces(db) && AreHeirs(db, MembershipsOf(db, email), heirs)
    ensures CanErase(db, email)
            <==> AuthorsExist(Erased(db, email, heirs)) && CreatorsExist(Erased(db, email, heirs))
  {
    var t := Erased(db, email, heirs);
    if CanErase(db, email) {
      CreatorsStay(db, email, heirs);
      AuthorsStay(db, email, heirs);
    }
    if AuthorsExist(t) && CreatorsExist(t) {
      forall m | m in MembershipsOf(db, email)
        ensures CanLeave(db, m)
      {
        AssetsKeepCreator(db, email, heirs, m);
      }
      DoomedAreUnreferenced(db, email, heirs);
    }
  }

  lemma OwnerlessIsNotOwned(db: Db, email: string, m: Id)
    requires m in MembershipsOf(db, email) && !HasOwner(db, db.users[m].tenant)
    ensures db.users[m].tenant.value !in OwnedBy(db, email)
  {
    var tenant := db.users[m].tenant;
    if tenant.value in OwnedBy(db, email) {
      var u :| u in db.users && db.users[u].email == email && db.users[u].owner && db.users[u].tenant == tenant;
      HasOwnerRow(db, tenant, u);
    }
  }

  lemma HasOwnerRow(db: Db, tenant: Option<Id>, u: Id)
    requires OwnerOf(db, tenant, u)
    ensures HasOwner(db, tenant)
  {
    assert u in Owners(db, tenant);
  }

  lemma NoHeirKeepsCreator(db: Db, email: string, heirs: map<Id, Id>, m: Id, a: Id)
    requires AreHeirs(db, MembershipsOf(db, email), heirs)
    requires m in MembershipsOf(db, email) && !HasOwner(db, db.users[m].tenant)
    requires a in db.assets && db.assets[a].creator == m && db.assets[a].tenant !in OwnedBy(db, email)
    ensures a in Erased(db, email, heirs).assets && Erased(db, email, heirs).assets[a].creator == m
    ensures m !in Erased(db, email, heirs).users
  {
    if m in heirs {
      HasOwnerRow(db, db.users[m].tenant, heirs[m]);
    }
  }

  lemma AssetsKeepCreator(db: Db, email: string, heirs: map<Id, Id>, m: Id)
    requires CreatedWithinWorkspaces(db) && AreHeirs(db, MembershipsOf(db, email), heirs)
    requires m in MembershipsOf(db, email) && CreatorsExist(Erased(db, email, heirs))
    ensures CanLeave(db, m)
  {
    if !HasOwner(db, db.users[m].tenant) {
      OwnerlessIsNotOwned(db, email, m);
      forall a | a in db.assets && db.assets[a].creator == m
        ensures false
      {
        NoHeirKeepsCreator(db, email, heirs, m, a);
      }
    }
  }

  /** What names a doomed row and stays goes on naming it. */
  lemma DoomedNamedStill(db: Db, email: string, heirs: map<Id, Id>, u: Id)
    requires OneRowPerWorkspace(db) && heirs.Keys <= MembershipsOf(db, email) && u in Doomed(db, email)
    ensures var t := Erased(db, email, heirs);
      && u !in t.users
      && (forall p :: p in db.posts && db.posts[p].tenant !in OwnedBy(db, email) && db.posts[p].author == Some(u) ==>
            p in t.posts && t.posts[p].author == Some(u))
      && (forall a :: a in db.assets && db.assets[a].tenant !in OwnedBy(db, email) && db.assets[a].creator == u ==>
            a in t.assets && t.assets[a].creator == u)
  {
    DoomedIsNotLeaving(db, email, u);
  }

  lemma DoomedAreUnreferenced(db: Db, email: string, heirs: map<Id, Id>)
    requires Sound(db) && AreHeirs(db, MembershipsOf(db, email), heirs)
    requires AuthorsExist(Erased(db, email, heirs)) && CreatorsExist(Erased(db, email, heirs))
    ensures Unreferenced(db, Doomed(db, email), OwnedBy(db, email))
  {
    forall u | u in Doomed(db, email)
      ensures forall p :: p in db.posts && db.posts[p].tenant !in OwnedBy(db, email) ==> db.posts[p].author != Some(u)
      ensures forall a :: a in db.assets && db.assets[a].tenant !in OwnedBy(db, email) ==> db.assets[a].creator != u
    {
      DoomedNamedStill(db, email, heirs, u);
    }
  }

  // ----- the handler

  datatype Outcome = PlatformAdmin | NotFound | Purged | Failed

  predicate IsPlatformAdmin(db: Db, email: string) {
    exists u :: u in db.users && db.users[u].email == email && db.users[u].platformAdmin
  }

  predicate Exists(db: Db, email: string) {
    exists u :: u in db.users && db.users[u].email == email
  }

  lemma InheritedNext(assets: map<Id, Asset>, heirs: map<Id, Id>, m: Id, heir: Id)
    requires m !in heirs && forall h :: h in heirs ==> heirs[h] != m
    ensures Inherited(assets, heirs[m := heir]) == Inherited(Inherited(assets, heirs), map[m := heir])
  {
    forall a | a in assets
      ensures Inherited(assets, heirs[m := heir])[a] == Inherited(Inherited(assets, heirs), map[m := heir])[a]
    {
    }
  }

  lemma UnsignedNext(db: Db, members: set<Id>, m: Id)
    ensures UnsignedPosts(db.posts, members + {m}) == UnsignedPosts(UnsignedPosts(db.posts, members), {m})
    ensures UnsignedComments(db.comments, members + {m})
            == UnsignedComments(UnsignedComments(db.comments, members), {m})
  {
  }

  function WithHeir(heirs: map<Id, Id>, m: Id, heir: Option<Id>): map<Id, Id> {
    if heir.Some? then heirs[m := heir.value] else heirs
  }

  /** A row leaves after the others that left before it. */
  lemma LeavingNext(db: Db, members: set<Id>, heirs: map<Id, Id>, m: Id, heir: Option<Id>)
    requires m !in members && heirs.Keys <= members && forall h :: h in heirs ==> heirs[h] != m
    ensures AfterLeaving(db, members + {m}, WithHeir(heirs, m, heir))
            == AfterLeaving(AfterLeaving(db, members, heirs), {m}, WithHeir(map[], m, heir))
  {
    UnsignedNext(db, members, m);
    assert db.users - members - {m} == db.users - (members + {m});
    if heir.Some? {
      InheritedNext(db.assets, heirs, m, heir.value);
    } else {
      assert Inherited(Inherited(db.assets, heirs), map[]) == Inherited(db.assets, heirs);
    }
  }

  /** Deleting one row that nothing refers to any more takes nothing else along. */
  lemma DeleteAlone(db: Db, m: Id)
    requires By(db, {m}) == {}
    ensures Without(db, {m}, {}) == db.(users := db.users - {m})
  {
    assert In(db, {}) == {};
    var gone := By(db, {m}) + In(db, {});
    assert Replies(db.comments, gone) == {};
    assert Threads(db.comments, gone) == {};
    var t := Without(db, {m}, {});
    assert t.posts == db.posts && t.assets == db.assets && t.keyed == db.keyed && t.comments == db.comments;
  }

  /** Handing over each kind in turn hands over everything. */
  lemma HandOverAll(assets: map<Id, Asset>, m: Id, heir: Id)
    requires m != heir
    ensures HandedOver(HandedOver(HandedOver(assets, Entry, m, heir), Key, m, heir), Upload, m, heir)
            == Inherited(assets, map[m := heir])
  {
  }

  predicate Takes(db: Db, m: Id, heir: Option<Id>)
    requires m in db.users
  {
    if heir.Some? then OwnerOf(db, db.users[m].tenant, heir.value) else !HasOwner(db, db.users[m].tenant)
  }

  /** The row's content no longer refers to it, except what no owner could take over. */
  function Detached(db: Db, m: Id, heir: Option<Id>): Db {
    AfterLeaving(db, {m}, WithHeir(map[], m, heir)).(users := db.users)
  }

  lemma DetachedCanGo(db: Db, m: Id, heir: Option<Id>)
    requires m in db.users && !db.users[m].owner && Takes(db, m, heir)
    ensures Unreferenced(Detached(db, m, heir), {m}, {}) <==> CanLeave(db, m)
  {
    var t := Detached(db, m, heir);
    if heir.Some? {
      assert heir.value in Owners(db, db.users[m].tenant);
    } else {
      assert t.assets == db.assets;
    }
  }

  lemma DetachedGoesAlone(db: Db, m: Id, heir: Option<Id>)
    requires m in db.users && !db.users[m].owner && Takes(db, m, heir)
    ensures Without(Detached(db, m, heir), {m}, {}) == AfterLeaving(db, {m}, WithHeir(map[], m, heir))
  {
    DeleteAlone(Detached(db, m, heir), m);
  }

  /** What the rows that already left took with them does not matter to the next. */
  lemma LeavingApart(db: Db, members: set<Id>, heirs: map<Id, Id>, m: Id, heir: Option<Id>)
    requires forall u :: u in members && u in db.users ==> !db.users[u].owner
    requires m in db.users && m !in members && heirs.Keys <= members
    requires forall h :: h in heirs ==> heirs[h] != m
    ensures var t := AfterLeaving(db, members, heirs);
      (Takes(t, m, heir) <==> Takes(db, m, heir)) && (CanLeave(t, m) <==> CanLeave(db, m))
  {
    var t := AfterLeaving(db, members, heirs);
    assert Owners(t, db.users[m].tenant) == Owners(db, db.users[m].tenant);
    if CanLeave(t, m) && !HasOwner(db, db.users[m].tenant) {
      forall a | a in db.assets
        ensures db.assets[a].creator != m
      {
        assert t.assets[a].creator != m;
      }
    }
  }

  function RowsBy(db: Db, email: string): set<Id> {
    set u | u in db.users && db.users[u].email == email
  }

  lemma UnreferencedTwice(db: Db, first: set<Id>, tenants: set<Id>, second: set<Id>)
    ensures Unreferenced(db, first, tenants) && Unreferenced(Without(db, first, tenants), second, {})
            <==> Unreferenced(db, first + second, tenants)
  {
    var t := Without(db, first, tenants);
    if Unreferenced(db, first, tenants) && Unreferenced(t, second, {}) {
      forall p | p in db.posts && db.posts[p].tenant !in tenants && db.posts[p].author.Some?
        ensures db.posts[p].author.value !in first + second
      {
        assert p in t.posts;
      }
      forall a | a in db.assets && db.assets[a].tenant !in tenants
        ensures db.assets[a].creator !in first + second
      {
        assert a in t.assets;
      }
    }
  }

  lemma CommentsTwice(db: Db, first: set<Id>, tenants: set<Id>, second: set<Id>)
    ensures Without(Without(db, first, tenants), second, {}).comments == Without(db, first + second, tenants).comments
  {
    var t := Without(db, first, tenants);
    var one := By(db, first) + In(db, tenants);
    ThreadsTogether(db.comments, one, By(db, second));
    assert By(t, second) + In(t, {}) == By(db, second) - Threads(db.comments, one);
    assert one + By(db, second) == By(db, first + second) + In(db, tenants);
  }

  /** Two deletions, of workspaces with their rows and then of more rows, are one. */
  lemma WithoutTwice(db: Db, first: set<Id>, tenants: set<Id>, second: set<Id>)
    ensures Without(Without(db, first, tenants), second, {}) == Without(db, first + second, tenants)
  {
    CommentsTwice(db, first, tenants, second);
    var u, v := Without(Without(db, first, tenants), second, {}), Without(db, first + second, tenants);
    assert u.users == v.users && u.tenants == v.tenants && u.posts == v.posts;
    assert u.assets == v.assets && u.keyed == v.keyed;
  }

  /** After the memberships are gone, the rows to delete are the doomed ones. */
  lemma DoomedAfterLeaving(db: Db, email: string, heirs: map<Id, Id>)
    requires OneRowPerWorkspace(db)
    ensures var left, owned := AfterLeaving(db, MembershipsOf(db, email), heirs), OwnedBy(db, email);
      RowsOf(left, owned) + RowsBy(Without(left, RowsOf(left, owned), owned), email) == Doomed(db, email)
  {
    var owned := OwnedBy(db, email);
    var left := AfterLeaving(db, MembershipsOf(db, email), heirs);
    forall u | u in Doomed(db, email)
      ensures u !in MembershipsOf(db, email)
    {
      DoomedIsNotLeaving(db, email, u);
    }
    assert RowsOf(left, owned) == RowsOf(db, owned);
    forall u | u in db.users && db.users[u].email == email
      ensures u in MembershipsOf(db, email) || u in Doomed(db, email)
    {
      EmailRowsGo(db, email, u);
    }
  }

  /** Leaving neither removes nor adds a reference to a doomed row. */
  lemma ReferencesAfterLeaving(db: Db, email: string, heirs: map<Id, Id>)
    requires Sound(db) && AreHeirs(db, MembershipsOf(db, email), heirs)
    ensures var doomed := Doomed(db, email);
      Unreferenced(AfterLeaving(db, MembershipsOf(db, email), heirs), doomed, OwnedBy(db, email))
      <==> Unreferenced(db, doomed, OwnedBy(db, email))
  {
    var members, owned := MembershipsOf(db, email), OwnedBy(db, email);
    var left := AfterLeaving(db, members, heirs);
    forall u | u in Doomed(db, email)
      ensures u !in members
    {
      DoomedIsNotLeaving(db, email, u);
    }
    forall a | a in db.assets
      ensures left.assets[a].creator in Doomed(db, email) <==> db.assets[a].creator in Doomed(db, email)
    {
      var m := db.assets[a].creator;
      if m in heirs {
        HeirStays(db, email, m, heirs[m]);
      }
    }
    UnreferencedSame(db, members, heirs, Doomed(db, email), owned);
  }

  lemma UnreferencedSame(db: Db, members: set<Id>, heirs: map<Id, Id>, who: set<Id>, tenants: set<Id>)
    requires members !! who
    requires forall a :: a in db.assets ==>
      (AfterLeaving(db, members, heirs).assets[a].creator in who <==> db.assets[a].creator in who)
    ensures Unreferenced(AfterLeaving(db, members, heirs), who, tenants) <==> Unreferenced(db, who, tenants)
  {
    var left := AfterLeaving(db, members, heirs);
    forall p | p in db.posts
      ensures p in left.posts && left.posts[p].tenant == db.posts[p].tenant
      ensures (left.posts[p].author.Some? && left.posts[p].author.value in who)
              <==> (db.posts[p].author.Some? && db.posts[p].author.value in who)
    {
    }
    forall a | a in db.assets
      ensures a in left.assets && left.assets[a].tenant == db.assets[a].tenant
    {
    }
  }

  lemma WithoutNothing(db: Db)
    ensures Without(db, {}, {}) == db && Unreferenced(db, {}, {})
  {
    assert By(db, {}) + In(db, {}) == {};
    assert Replies(db.comments, {}) == {} && Threads(db.comments, {}) == {};
    var t := Without(db, {}, {});
    assert t.users == db.users && t.posts == db.posts && t.comments == db.comments && t.assets == db.assets;
    assert t.tenants == db.tenants && t.keyed == db.keyed;
  }

  class Database {
    var db: Db
    /** Every statement is answered. */
    const steady: bool

    constructor (db: Db, steady: bool)
      ensures this.db == db && this.steady == steady
    {
      this.db, this.steady := db, steady;
    }

    /** Whether the next statement is answered. */
    method Answer() returns (ok: bool)
      ensures steady ==> ok
    {
      ok := *;
      if steady {
        ok := true;
      }
    }

    method HandOver(m: Id, heir: Id) returns (ok: bool)
      requires m != heir
      modifies this
      ensures ok ==> db == old(db).(assets := Inherited(old(db).assets, map[m := heir]))
      ensures steady ==> ok
    {
      HandOverAll(db.assets, m, heir);
      ok := Answer();
      if !ok { return; }
      db := db.(assets := HandedOver(db.assets, Entry, m, heir));
      ok := Answer();
      if !ok { return; }
      db := db.(assets := HandedOver(db.assets, Key, m, heir));
      ok := Answer();
      if !ok { return; }
      db := db.(assets := HandedOver(db.assets, Upload, m, heir));
    }

    /** Deletes user rows, unless a row that restricts it refers to one of them. */
    method DeleteUsers(who: set<Id>) returns (ok: bool)
      modifies this
      ensures ok ==> Unreferenced(old(db), who, {}) && db == Without(old(db), who, {})
      ensures steady ==> (ok <==> Unreferenced(old(db), who, {}))
    {
      ok := Answer();
      if !ok { return; }
      if !Unreferenced(db, who, {}) {
        return false;
      }
      db := Without(db, who, {});
    }

    /** A joined workspace's content is anonymised, or handed over to its owner. */
    method Detach(m: Id) returns (ok: bool, heir: Option<Id>)
      requires m in db.users && !db.users[m].owner
      modifies this
      ensures ok ==> Takes(old(db), m, heir) && db == Detached(old(db), m, heir)
      ensures steady ==> ok
    {
      heir := None;
      ok := Answer();
      if !ok { return; }
      var owners := Owners(db, db.users[m].tenant);
      if owners != {} {
        var u :| u in owners;
        heir := Some(u);
      }
      ok := Answer();
      if !ok { return; }
      db := db.(posts := UnsignedPosts(db.posts, {m}));
      ok := Answer();
      if !ok { return; }
      db := db.(comments := UnsignedComments(db.comments, {m}));
      if heir.Some? {
        ok := HandOver(m, heir.value);
      } else {
        assert Inherited(db.assets, map[]) == db.assets;
      }
    }

    /** One joined workspace: what the row left there stays, and the row goes. */
    method Leave(m: Id) returns (ok: bool, heir: Option<Id>)
      requires m in db.users && !db.users[m].owner
      modifies this
      ensures ok ==> Takes(old(db), m, heir) && CanLeave(old(db), m)
      ensures ok ==> db == AfterLeaving(old(db), {m}, WithHeir(map[], m, heir))
      ensures steady ==> (ok <==> CanLeave(old(db), m))
    {
      ok, heir := Detach(m);
      if !ok { return; }
      DetachedCanGo(old(db), m, heir);
      DetachedGoesAlone(old(db), m, heir);
      ok := DeleteUsers({m});
    }

    /** Every joined workspace in turn, in whatever order the rows are read. */
    method LeaveAll(email: string) returns (ok: bool, ghost heirs: map<Id, Id>)
      modifies this
      ensures ok ==> AreHeirs(old(db), MembershipsOf(old(db), email), heirs)
      ensures ok ==> db == AfterLeaving(old(db), MembershipsOf(old(db), email), heirs)
      ensures ok ==> forall m :: m in MembershipsOf(old(db), email) ==> CanLeave(old(db), m)
      ensures steady ==> (ok <==> forall m :: m in MembershipsOf(old(db), email) ==> CanLeave(old(db), m))
    {
      var members := MembershipsOf(db, email);
      var todo := members;
      ok, heirs := true, map[];
      ghost var left: set<Id> := {};
      assert AfterLeaving(db, {}, map[]) == db;
      while todo != {}
        invariant ok && left + todo == members && left !! todo
        invariant AreHeirs(old(db), left, heirs) && db == AfterLeaving(old(db), left, heirs)
        invariant forall m :: m in left ==> CanLeave(old(db), m)
        decreases todo
      {
        var m :| m in todo;
        var heir;
        ghost var before := db;
        LeavingApart(old(db), left, heirs, m, None);
        ok, heir := Leave(m);
        if !ok { return; }
        LeavingApart(old(db), left, heirs, m, heir);
        LeavingNext(old(db), left, heirs, m, heir);
        heirs := WithHeir(heirs, m, heir);
        left, todo := left + {m}, todo - {m};
      }
    }

    /** Deletes workspaces with all they hold, their user rows last. */
    method DeleteTenants(tenants: set<Id>) returns (ok: bool)
      modifies this
      ensures ok ==> Unreferenced(old(db), RowsOf(old(db), tenants), tenants)
      ensures ok ==> db == Without(old(db), RowsOf(old(db), tenants), tenants)
      ensures steady ==> (ok <==> Unreferenced(old(db), RowsOf(old(db), tenants), tenants))
    {
      ok := Answer();
      if !ok { return; }
      if !Unreferenced(db, RowsOf(db, tenants), tenants) {
        return false;
      }
      db := Without(db, RowsOf(db, tenants), tenants);
    }

    method DeleteKeyed(table: Table, email: string) returns (ok: bool)
      modifies this
      ensures ok ==> db == old(db).(keyed := set k | k in old(db).keyed && !(k.table == table && k.email == email))
      ensures steady ==> ok
    {
      ok := Answer();
      if !ok { return; }
      db := db.(keyed := set k | k in db.keyed && !(k.table == table && k.email == email));
    }

    method DeleteAllKeyed(email: string) returns (ok: bool)
      modifies this
      ensures ok ==> db == old(db).(keyed := KeyedElsewhere(old(db).keyed, email))
      ensures steady ==> ok
    {
      ok := DeleteKeyed(Billing, email);
      if !ok { return; }
      ok := DeleteKeyed(Session, email);
      if !ok { return; }
      ok := DeleteKeyed(Reset, email);
      if !ok { return; }
      ok := DeleteKeyed(Invitation, email);
      if !ok { return; }
      ok := DeleteKeyed(SocialLogin, email);
      if !ok { return; }
      assert db.keyed == KeyedElsewhere(old(db).keyed, email);
    }

    /** The owned workspaces, then every row still under the email. */
    method DeleteRest(owned: set<Id>, email: string) returns (ok: bool)
      modifies this
      ensures var rows := RowsOf(old(db), owned);
              var who := rows + RowsBy(Without(old(db), rows, owned), email);
              && (ok ==> Unreferenced(old(db), who, owned))
              && (ok ==> db == (var t := Without(old(db), who, owned); t.(keyed := KeyedElsewhere(t.keyed, email))))
              && (steady ==> (ok <==> Unreferenced(old(db), who, owned)))
    {
      ghost var rows := RowsOf(db, owned);
      ghost var who := RowsBy(Without(db, rows, owned), email);
      UnreferencedTwice(db, rows, owned, who);
      WithoutTwice(db, rows, owned, who);
      if owned != {} {
        ok := DeleteTenants(owned);
        if !ok { return; }
      } else {
        WithoutNothing(db);
        assert rows == {};
      }
      ok := DeleteUsers(RowsBy(db, email));
      if !ok { return; }
      ok := DeleteAllKeyed(email);
    }

    /** Erases the account, or leaves every table as it was. */
    method PurgeAccount(email: string, allowPlatformAdmin: bool) returns (outcome: Outcome, ghost heirs: map<Id, Id>)
      requires Sound(db)
      modifies this
      ensures outcome == Purged ==>
        && AreHeirs(old(db), MembershipsOf(old(db), email), heirs) && CanErase(old(db), email)
        && db == Erased(old(db), email, heirs)
      ensures outcome == Purged ==>
        && TenantsLeft(old(db), email, db) && UsersLeft(old(db), email, db) && KeyedLeft(old(db), email, db)
        && PostsLeft(old(db), email, db) && CommentsLeft(old(db), email, db) && AssetsLeft(old(db), email, db)
        && Sound(db)
      ensures outcome != Purged ==> db == old(db)
      ensures var was := old(db).users;
        && (outcome == PlatformAdmin <==>
              !allowPlatformAdmin && exists u :: u in was && was[u].email == email && was[u].platformAdmin)
        && (outcome == NotFound <==>
              outcome != PlatformAdmin && forall u :: u in was ==> was[u].email != email)
      ensures steady && outcome != PlatformAdmin && outcome != NotFound ==>
        (outcome == Purged <==> CanErase(old(db), email))
    {
      heirs := map[];
      if !allowPlatformAdmin && IsPlatformAdmin(db, email) {
        return PlatformAdmin, heirs;
      }
      if !Exists(db, email) {
        return NotFound, heirs;
      }
      var owned, before := OwnedBy(db, email), db;
      var ok;
      ok, heirs := LeaveAll(email);
      if ok {
        DoomedAfterLeaving(before, email, heirs);
        ReferencesAfterLeaving(before, email, heirs);
        ok := DeleteRest(owned, email);
      }
      if !ok {
        db := before;
        return Failed, heirs;
      }
      LeftAfterPurge(before, email, heirs);
      outcome := Purged;
    }
  }
}
