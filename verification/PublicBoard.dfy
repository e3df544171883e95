/**
 * The public feedback board: one page of posts with their counts. The page is fetched with joins and
 * three batched lookups folded in one pass, and equals the page computed post by post.
 */
module PublicBoard {
  import opened Options
  import opened Rows
  import Text

  type Id = nat

  datatype State = Published | Awaiting | Spam

  datatype Post = Post(
    id: Id,
    tenant: Id,
    author: Option<Id>,
    submitter: Option<string>,
    title: string,
    description: string,
    postType: string,
    status: string,
    moderation: State,
    pinned: bool,
    createdAt: int)

  datatype User = User(id: Id, fullName: string)

  datatype Vote = Vote(tenant: Id, post: Id)

  datatype Comment = Comment(tenant: Id, post: Id, moderation: State)

  /** `post` is absent for an upload not linked to a post yet. */
  datatype Attachment = Attachment(id: Id, tenant: Id, post: Option<Id>, image: bool, path: string)

  datatype Tag = Tag(id: Id, name: string, color: Option<string>)

  datatype PostTag = PostTag(tenant: Id, post: Id, tag: Id)

  datatype Db = Db(
    posts: seq<Post>,
    users: seq<User>,
    votes: seq<Vote>,
    comments: seq<Comment>,
    attachments: seq<Attachment>,
    tags: seq<Tag>,
    postTags: seq<PostTag>)

  /** The primary keys that the query relies on. */
  ghost predicate KeysDistinct(db: Db) {
    && (forall i, j :: 0 <= i < j < |db.users| ==> db.users[i].id != db.users[j].id)
    && (forall i, j :: 0 <= i < j < |db.attachments| ==> db.attachments[i].id != db.attachments[j].id)
  }

  // ----- the request

  const MAX_ITEMS_PER_PAGE := 50
  const MAX_OFFSET := 100_000
  const MAX_SEARCH_LENGTH := 100

  /** An empty string or a zero tag is no filter. */
  datatype Filters = Filters(status: string, postType: string, tag: Id, search: string)

  /** Numbers that do not parse are absent. */
  datatype Paging = Paging(sortBy: string, itemsPerPage: Option<real>, offset: Option<real>, filterBy: string)

  datatype Sort = Newest | Oldest | MostVoted | LeastVoted

  function SortOf(sortBy: string): Sort {
    match sortBy
    case "oldest" => Oldest
    case "most_voted" => MostVoted
    case "least_voted" => LeastVoted
    case _ => Newest
  }

  function Clamp(low: int, x: int, high: int): int {
    if x < low then low else if x > high then high else x
  }

  function PageSize(paging: Paging): nat {
    var asked := paging.itemsPerPage.Or(0.0);
    Clamp(1, if asked == 0.0 then 20 else asked.Floor, MAX_ITEMS_PER_PAGE)
  }

  function Offset(paging: Paging): nat {
    Clamp(0, paging.offset.Or(0.0).Floor, MAX_OFFSET)
  }

  function SearchText(filters: Filters, paging: Paging): string {
    var text := Text.Trim(if filters.search != "" then filters.search else paging.filterBy);
    if |text| > MAX_SEARCH_LENGTH then text[..MAX_SEARCH_LENGTH] else text
  }

  /** One board request; `like` is the database's LIKE. */
  datatype Query = Query(db: Db, tenant: Id, paging: Paging, filters: Filters, like: (string, string) -> bool)

  // ----- the board, post by post

  function Shown(q: Query): Post -> bool {
    var text := SearchText(q.filters, q.paging);
    (p: Post) =>
      && p.tenant == q.tenant && p.moderation != Spam
      && (q.filters.status == "" || p.status == q.filters.status)
      && (q.filters.postType == "" || p.postType == q.filters.postType)
      && (q.filters.tag == 0 || PostTag(q.tenant, p.id, q.filters.tag) in q.db.postTags)
      && (text == "" || q.like(p.title, "%" + text + "%") || q.like(p.description, "%" + text + "%"))
  }

  function Wrote(): (Post, User) -> bool {
    (p: Post, u: User) => p.author == Some(u.id)
  }

  function VoteFor(tenant: Id, post: Id): Vote -> bool {
    (v: Vote) => v.tenant == tenant && v.post == post
  }

  function ShownOn(tenant: Id, post: Id): Comment -> bool {
    (c: Comment) => c.tenant == tenant && c.post == post && c.moderation != Spam
  }

  function AttachedTo(tenant: Id, post: Id): Attachment -> bool {
    (a: Attachment) => a.tenant == tenant && a.post == Some(post)
  }

  function Tags(tenant: Id, post: Id): PostTag -> bool {
    (t: PostTag) => t.tenant == tenant && t.post == post
  }

  datatype TagRow = TagRow(post: Id, tag: Tag)

  function Named(tag: Id): Tag -> bool {
    (t: Tag) => t.id == tag
  }

  function Tagged(post: Id): Tag -> TagRow {
    (t: Tag) => TagRow(post, t)
  }

  /** The join of post tags with the tags they name. */
  function TagRows(rows: seq<PostTag>, tags: seq<Tag>): seq<TagRow> {
    if rows == [] then [] else Map(Filter(tags, Named(rows[0].tag)), Tagged(rows[0].post)) + TagRows(rows[1..], tags)
  }

  function TagIn(): TagRow -> Tag {
    (r: TagRow) => r.tag
  }

  function TagsOf(db: Db, tenant: Id, post: Id): seq<Tag> {
    Map(TagRows(Filter(db.postTags, Tags(tenant, post)), db.tags), TagIn())
  }

  function AttachmentsTo(db: Db, tenant: Id, post: Id): seq<Attachment> {
    Filter(db.attachments, AttachedTo(tenant, post))
  }

  /** The image with the lowest id. */
  function LowestImage(s: seq<Attachment>): (r: Option<Attachment>)
    ensures r.Some? ==> r.value in s && r.value.image && forall a :: a in s && a.image ==> r.value.id <= a.id
    ensures r.None? ==> forall a :: a in s ==> !a.image
  {
    if s == [] then None else
    var rest := LowestImage(s[1..]);
    if s[0].image && (rest.None? || s[0].id <= rest.value.id) then Some(s[0]) else rest
  }

  function PathOf(a: Option<Attachment>): Option<string> {
    if a.Some? then Some(a.value.path) else None
  }

  function AuthorName(p: Post, u: Option<User>): string {
    if u.Some? then u.value.fullName else p.submitter.Or("Anonymous")
  }

  datatype Card = Card(post: Post, author: string, votes: nat, tags: seq<Tag>, comments: nat, attachments: nat,
                       thumbnail: Option<string>)

  /** One post with every count and lookup done for that post alone. */
  function CardFor(db: Db, tenant: Id, p: Post): Card {
    Card(
      p,
      AuthorName(p, Partner(p, db.users, Wrote())),
      |Filter(db.votes, VoteFor(tenant, p.id))|,
      TagsOf(db, tenant, p.id),
      |Filter(db.comments, ShownOn(tenant, p.id))|,
      |AttachmentsTo(db, tenant, p.id)|,
      PathOf(LowestImage(AttachmentsTo(db, tenant, p.id))))
  }

  function CardOf(db: Db, tenant: Id): Post -> Card {
    (p: Post) => CardFor(db, tenant, p)
  }

  /** Pinned posts first, then by the requested key. */
  predicate Precedes(sort: Sort, p: Post, votes: nat, other: Post, otherVotes: nat) {
    if p.pinned != other.pinned then p.pinned else
    match sort
    case Newest => p.createdAt >= other.createdAt
    case Oldest => p.createdAt <= other.createdAt
    case MostVoted => votes > otherVotes || (votes == otherVotes && p.createdAt >= other.createdAt)
    case LeastVoted => votes < otherVotes || (votes == otherVotes && p.createdAt >= other.createdAt)
  }

  function CardOrder(sort: Sort): (Card, Card) -> bool {
    (c: Card, d: Card) => Precedes(sort, c.post, c.votes, d.post, d.votes)
  }

  /** Every card of the board, in order. */
  function Board(q: Query): seq<Card> {
    SortBy(Map(Filter(q.db.posts, Shown(q)), CardOf(q.db, q.tenant)), CardOrder(SortOf(q.paging.sortBy)))
  }

  function Page<T>(s: seq<T>, offset: nat, size: nat): seq<T> {
    var from := if offset > |s| then |s| else offset;
    var to := if offset + size > |s| then |s| else offset + size;
    s[from..to]
  }

  // ----- what the board is, column by column

  /** The search is the trimmed search box, or else the paging filter, cut to its first hundred characters. */
  lemma SearchIsCut(filters: Filters, paging: Paging)
    ensures var asked := Text.Trim(if filters.search == "" then paging.filterBy else filters.search);
      && SearchText(filters, paging) <= asked
      && (SearchText(filters, paging) == asked || |SearchText(filters, paging)| == 100)
      && |SearchText(filters, paging)| <= 100
  {
  }

  /** A post of the workspace, not spam, of the asked status, type and tag, with the text in title or description. */
  ghost predicate IsListed(q: Query, p: Post) {
    && p.tenant == q.tenant
    && p.moderation != Spam
    && (q.filters.status != "" ==> p.status == q.filters.status)
    && (q.filters.postType != "" ==> p.postType == q.filters.postType)
    && (q.filters.tag != 0 ==>
          exists t :: t in q.db.postTags && t.tenant == q.tenant && t.post == p.id && t.tag == q.filters.tag)
    && (SearchText(q.filters, q.paging) != "" ==>
          var pattern := "%" + SearchText(q.filters, q.paging) + "%";
          q.like(p.title, pattern) || q.like(p.description, pattern))
  }

  ghost predicate IsAuthor(db: Db, p: Post, name: string) {
    && (forall u :: u in db.users && p.author == Some(u.id) ==> name == u.fullName)
    && ((forall u :: u in db.users ==> p.author != Some(u.id)) ==>
          name == match p.submitter case Some(submitter) => submitter case None => "Anonymous")
  }

  /** The path of the image with the lowest id, if there is an image. */
  ghost predicate IsThumbnail(db: Db, tenant: Id, post: Id, path: Option<string>) {
    var images := set a | a in db.attachments && a.tenant == tenant && a.post == Some(post) && a.image;
    if path.None? then images == {} else
    exists a :: a in images && a.path == path.value && forall b :: b in images ==> a.id <= b.id
  }

  /** Author, votes, tags, comments that are not spam, attachments and thumbnail are those of the post itself. */
  ghost predicate IsCard(q: Query, c: Card) {
    var db, tenant, post := q.db, q.tenant, c.post.id;
    && IsAuthor(db, c.post, c.author)
    && c.votes == |set i | 0 <= i < |db.votes| && db.votes[i].tenant == tenant && db.votes[i].post == post|
    && (forall t :: t in c.tags <==> t in db.tags && PostTag(tenant, post, t.id) in db.postTags)
    && c.comments == |set i | 0 <= i < |db.comments| && db.comments[i].tenant == tenant && db.comments[i].post == post
                             && db.comments[i].moderation != Spam|
    && c.attachments == |set i | 0 <= i < |db.attachments| && db.attachments[i].tenant == tenant
                                && db.attachments[i].post == Some(post)|
    && IsThumbnail(db, tenant, post, c.thumbnail)
  }

  /** Pinned posts first; then by date or by votes, and on equal votes the newest first. */
  ghost predicate NotAfter(sortBy: string, c: Card, d: Card) {
    if c.post.pinned != d.post.pinned then c.post.pinned
    else if sortBy == "oldest" then c.post.createdAt <= d.post.createdAt
    else if sortBy == "most_voted" && c.votes != d.votes then c.votes > d.votes
    else if sortBy == "least_voted" && c.votes != d.votes then c.votes < d.votes
    else c.post.createdAt >= d.post.createdAt
  }

  lemma AuthorIsRight(db: Db, p: Post)
    requires KeysDistinct(db)
    ensures IsAuthor(db, p, AuthorName(p, Partner(p, db.users, Wrote())))
  {
    PartnerMatches(p, db.users, Wrote());
    var writer := Partner(p, db.users, Wrote());
    forall u | u in db.users && p.author == Some(u.id)
      ensures writer == Some(u)
    {
      assert Wrote()(p, u) && Wrote()(p, writer.value);
    }
    assert writer.Some? ==> Wrote()(p, writer.value);
    assert forall u :: u in db.users && p.author != Some(u.id) ==> !Wrote()(p, u);
  }

  lemma CountsAreRight(db: Db, tenant: Id, post: Id)
    ensures |Filter(db.votes, VoteFor(tenant, post))|
            == |set i | 0 <= i < |db.votes| && db.votes[i].tenant == tenant && db.votes[i].post == post|
    ensures |Filter(db.comments, ShownOn(tenant, post))|
            == |set i | 0 <= i < |db.comments| && db.comments[i].tenant == tenant && db.comments[i].post == post
                        && db.comments[i].moderation != Spam|
    ensures |AttachmentsTo(db, tenant, post)|
            == |set i | 0 <= i < |db.attachments| && db.attachments[i].tenant == tenant
                        && db.attachments[i].post == Some(post)|
  {
    AllCount(db.votes, VoteFor(tenant, post),
             set i | 0 <= i < |db.votes| && db.votes[i].tenant == tenant && db.votes[i].post == post);
    AllCount(db.comments, ShownOn(tenant, post),
             set i | 0 <= i < |db.comments| && db.comments[i].tenant == tenant && db.comments[i].post == post
                     && db.comments[i].moderation != Spam);
    AllCount(db.attachments, AttachedTo(tenant, post),
             set i | 0 <= i < |db.attachments| && db.attachments[i].tenant == tenant
                     && db.attachments[i].post == Some(post));
  }

  lemma NamedTags(tags: seq<Tag>, r: PostTag, t: Tag)
    ensures t in Map(Map(Filter(tags, Named(r.tag)), Tagged(r.post)), TagIn()) <==> t in tags && t.id == r.tag
  {
    var named := Filter(tags, Named(r.tag));
    FilterHas(tags, Named(r.tag), t);
    assert Map(Map(named, Tagged(r.post)), TagIn()) == named;
  }

  lemma {:induction false} TagRowsHas(rows: seq<PostTag>, tags: seq<Tag>, t: Tag)
    ensures t in Map(TagRows(rows, tags), TagIn()) <==> t in tags && exists i :: 0 <= i < |rows| && rows[i].tag == t.id
  {
    if rows != [] {
      var r, rest := rows[0], rows[1..];
      TagRowsHas(rest, tags, t);
      NamedTags(tags, r, t);
      var first := Map(Filter(tags, Named(r.tag)), Tagged(r.post));
      MapAppend(first, TagRows(rest, tags), TagIn());
      assert TagRows(rows, tags) == first + TagRows(rest, tags);
      assert forall i :: 0 < i < |rows| ==> rows[i] == rest[i - 1];
    }
  }

  lemma TagsAreRight(db: Db, tenant: Id, post: Id, t: Tag)
    ensures t in TagsOf(db, tenant, post) <==> t in db.tags && PostTag(tenant, post, t.id) in db.postTags
  {
    var own := Filter(db.postTags, Tags(tenant, post));
    TagRowsHas(own, db.tags, t);
    FilterHas(db.postTags, Tags(tenant, post), PostTag(tenant, post, t.id));
    FilterMembers(db.postTags, Tags(tenant, post));
    assert forall i :: 0 <= i < |own| ==> own[i] in db.postTags && Tags(tenant, post)(own[i]);
  }

  lemma ThumbnailIsRight(db: Db, tenant: Id, post: Id)
    ensures IsThumbnail(db, tenant, post, PathOf(LowestImage(AttachmentsTo(db, tenant, post))))
  {
    var own := AttachmentsTo(db, tenant, post);
    var images := set a | a in db.attachments && a.tenant == tenant && a.post == Some(post) && a.image;
    forall a: Attachment
      ensures a in images <==> a in own && a.image
    {
      FilterHas(db.attachments, AttachedTo(tenant, post), a);
    }
  }

  lemma CardIsRight(q: Query, p: Post)
    requires KeysDistinct(q.db)
    ensures IsCard(q, CardFor(q.db, q.tenant, p))
  {
    AuthorIsRight(q.db, p);
    CountsAreRight(q.db, q.tenant, p.id);
    forall t: Tag {
      TagsAreRight(q.db, q.tenant, p.id, t);
    }
    ThumbnailIsRight(q.db, q.tenant, p.id);
  }

  lemma ListedIsShown(q: Query, p: Post)
    ensures IsListed(q, p) <==> Shown(q)(p)
  {
    var t := PostTag(q.tenant, p.id, q.filters.tag);
    assert forall u: PostTag :: u.tenant == q.tenant && u.post == p.id && u.tag == q.filters.tag ==> u == t;
  }

  lemma BoardHas(q: Query, c: Card)
    ensures c in Board(q) <==> c.post in q.db.posts && IsListed(q, c.post) && c == CardFor(q.db, q.tenant, c.post)
  {
    var shown := Filter(q.db.posts, Shown(q));
    var cards := Map(shown, CardOf(q.db, q.tenant));
    SortHas(cards, CardOrder(SortOf(q.paging.sortBy)), c);
    FilterHas(q.db.posts, Shown(q), c.post);
    ListedIsShown(q, c.post);
    if c in cards {
      var i :| 0 <= i < |cards| && cards[i] == c;
      assert c == CardOf(q.db, q.tenant)(shown[i]);
    }
    if c.post in shown {
      var i :| 0 <= i < |shown| && shown[i] == c.post;
      assert cards[i] == CardOf(q.db, q.tenant)(c.post);
    }
  }

  /** A post's card is on the board exactly when the request asks for the post. */
  lemma ListedExactly(q: Query, p: Post)
    ensures (exists c :: c in Board(q) && c.post == p) <==> p in q.db.posts && IsListed(q, p)
  {
    forall c: Card {
      BoardHas(q, c);
    }
    BoardHas(q, CardFor(q.db, q.tenant, p));
  }

  lemma CardsAreRight(q: Query)
    requires KeysDistinct(q.db)
    ensures forall c :: c in Board(q) ==> c.post in q.db.posts && IsListed(q, c.post) && IsCard(q, c)
  {
    forall c | c in Board(q)
      ensures c.post in q.db.posts && IsListed(q, c.post) && IsCard(q, c)
    {
      BoardHas(q, c);
      CardIsRight(q, c.post);
    }
  }

  /** The board has as many cards as posts are asked for. */
  lemma BoardCounts(q: Query)
    ensures |Board(q)| == |set i | 0 <= i < |q.db.posts| && IsListed(q, q.db.posts[i])|
  {
    forall p: Post {
      ListedIsShown(q, p);
    }
    AllCount(q.db.posts, Shown(q), set i | 0 <= i < |q.db.posts| && IsListed(q, q.db.posts[i]));
  }

  /** Its cards come in the order asked for, whatever the name of the sort is. */
  lemma BoardFollowsSort(q: Query)
    ensures Ordered(Board(q), (c: Card, d: Card) => NotAfter(q.paging.sortBy, c, d))
  {
    SortOrders(Map(Filter(q.db.posts, Shown(q)), CardOf(q.db, q.tenant)), CardOrder(SortOf(q.paging.sortBy)));
    forall c: Card, d: Card
      ensures CardOrder(SortOf(q.paging.sortBy))(c, d) ==> NotAfter(q.paging.sortBy, c, d)
    {
    }
  }

  /** One to fifty cards a page, twenty unless a number is given, from an offset of at most a hundred thousand. */
  lemma PagingIsBounded(paging: Paging)
    ensures var size := PageSize(paging);
      match paging.itemsPerPage
      case None => size == 20
      case Some(x) =>
        if x == 0.0 then size == 20 else if x < 1.0 then size == 1 else if x > 50.0 then size == 50
        else size as real <= x < size as real + 1.0
    ensures var offset := Offset(paging);
      match paging.offset
      case None => offset == 0
      case Some(x) =>
        if x < 0.0 then offset == 0 else if x > 100000.0 then offset == 100000
        else offset as real <= x < offset as real + 1.0
  {
  }

  // ----- the list query

  datatype Row = Row(post: Post, author: string, votes: nat)

  type Joined = ((Post, Option<User>), Option<Group>)

  function VotesIn(tenant: Id): Vote -> bool {
    (v: Vote) => v.tenant == tenant
  }

  function VotedPost(): Vote -> Id {
    (v: Vote) => v.post
  }

  function VoteGroups(q: Query): seq<Group> {
    Grouped(Filter(q.db.votes, VotesIn(q.tenant)), VotedPost())
  }

  function OnPost(): ((Post, Option<User>), Group) -> bool {
    (l: (Post, Option<User>), g: Group) => g.key == l.0.id
  }

  function Select(): Joined -> Row {
    (j: Joined) => Row(j.0.0, AuthorName(j.0.0, j.0.1), if j.1.Some? then j.1.value.count else 0)
  }

  function Wanted(q: Query): Joined -> bool {
    (j: Joined) => Shown(q)(j.0.0)
  }

  function RowOrder(sort: Sort): (Row, Row) -> bool {
    (r: Row, s: Row) => Precedes(sort, r.post, r.votes, s.post, s.votes)
  }

  /** FROM posts LEFT JOIN users LEFT JOIN vote counts, then WHERE and SELECT. */
  function ListQuery(q: Query): seq<Row> {
    var joined := LeftJoin(LeftJoin(q.db.posts, q.db.users, Wrote()), VoteGroups(q), OnPost());
    Map(Filter(joined, Wanted(q)), Select())
  }

  function RowOf(q: Query): Post -> Row {
    (p: Post) => Row(p, AuthorName(p, Partner(p, q.db.users, Wrote())), |Filter(q.db.votes, VoteFor(q.tenant, p.id))|)
  }

  lemma {:induction false} PartnerCounts(l: (Post, Option<User>), groups: seq<Group>)
    ensures CountAt(groups, l.0.id) == (var g := Partner(l, groups, OnPost()); if g.Some? then g.value.count else 0)
  {
    if groups != [] {
      PartnerCounts(l, groups[1..]);
    }
  }

  /** A post's vote group holds its votes. */
  lemma VotesOfPost(q: Query, l: (Post, Option<User>))
    ensures KeysOnce(VoteGroups(q))
    ensures Select()((l, Partner(l, VoteGroups(q), OnPost()))).votes == |Filter(q.db.votes, VoteFor(q.tenant, l.0.id))|
  {
    GroupCounts(Filter(q.db.votes, VotesIn(q.tenant)), VotedPost(), l.0.id);
    FilterTwice(q.db.votes, VotesIn(q.tenant), With(VotedPost(), l.0.id), VoteFor(q.tenant, l.0.id));
    PartnerCounts(l, VoteGroups(q));
  }

  lemma {:induction false} OneRowForEach(q: Query, posts: seq<Post>)
    ensures var pairs := Map(Map(posts, Paired(q.db.users, Wrote())), Paired(VoteGroups(q), OnPost()));
            Map(Filter(pairs, Wanted(q)), Select()) == Map(Filter(posts, Shown(q)), RowOf(q))
  {
    if posts != [] {
      OneRowForEach(q, posts[1..]);
      VotesOfPost(q, Paired(q.db.users, Wrote())(posts[0]));
    }
  }

  /** The joins lose and duplicate no post: the query gives one row for each post that is shown. */
  lemma ListQueryRows(q: Query)
    requires KeysDistinct(q.db)
    ensures ListQuery(q) == Map(Filter(q.db.posts, Shown(q)), RowOf(q))
  {
    forall p: Post
      ensures AtMostOnePartner(p, q.db.users, Wrote())
    {
    }
    JoinOnKey(q.db.posts, q.db.users, Wrote());
    var withUser := Map(q.db.posts, Paired(q.db.users, Wrote()));
    forall l: (Post, Option<User>)
      ensures AtMostOnePartner(l, VoteGroups(q), OnPost())
    {
      VotesOfPost(q, l);
    }
    JoinOnKey(withUser, VoteGroups(q), OnPost());
    OneRowForEach(q, q.db.posts);
  }

  /** A row with what the batched lookups add. */
  function CardFrom(q: Query): Row -> Card {
    (r: Row) => CardFor(q.db, q.tenant, r.post).(author := r.author, votes := r.votes)
  }

  lemma RowsBecomeCards(q: Query)
    requires KeysDistinct(q.db)
    ensures Map(ListQuery(q), CardFrom(q)) == Map(Filter(q.db.posts, Shown(q)), CardOf(q.db, q.tenant))
  {
    ListQueryRows(q);
    var shown := Filter(q.db.posts, Shown(q));
    forall i | 0 <= i < |shown|
      ensures CardOf(q.db, q.tenant)(shown[i]) == CardFrom(q)(RowOf(q)(shown[i]))
    {
    }
    MapMap(shown, RowOf(q), CardFrom(q), CardOf(q.db, q.tenant));
  }

  lemma RowsSortAsCards(q: Query, sort: Sort)
    ensures Agree(CardFrom(q), RowOrder(sort), CardOrder(sort))
  {
    forall r, t: Row
      ensures RowOrder(sort)(r, t) == CardOrder(sort)(CardFrom(q)(r), CardFrom(q)(t))
    {
    }
  }

  lemma PageOfMap<T, U>(s: seq<T>, f: T -> U, offset: nat, size: nat)
    ensures Map(Page(s, offset, size), f) == Page(Map(s, f), offset, size)
  {
  }

  function SortedRows(q: Query): seq<Row> {
    SortBy(ListQuery(q), RowOrder(SortOf(q.paging.sortBy)))
  }

  /** Sorting and cutting the list query's rows gives the rows of the page. */
  lemma PageRows(q: Query, offset: nat, size: nat)
    requires KeysDistinct(q.db)
    ensures Map(Page(SortedRows(q), offset, size), CardFrom(q)) == Page(Board(q), offset, size)
  {
    var sort := SortOf(q.paging.sortBy);
    PageOfMap(SortedRows(q), CardFrom(q), offset, size);
    RowsSortAsCards(q, sort);
    MapSort(ListQuery(q), CardFrom(q), RowOrder(sort), CardOrder(sort));
    RowsBecomeCards(q);
  }

  // ----- the batched lookups

  predicate OnPage(tenant: Id, ids: seq<Id>, rowTenant: Id, post: Id) {
    rowTenant == tenant && post in ids
  }

  function TagsOnPage(tenant: Id, ids: seq<Id>): PostTag -> bool {
    (t: PostTag) => OnPage(tenant, ids, t.tenant, t.post)
  }

  function CommentsOnPage(tenant: Id, ids: seq<Id>): Comment -> bool {
    (c: Comment) => OnPage(tenant, ids, c.tenant, c.post) && c.moderation != Spam
  }

  function AttachmentsOnPage(tenant: Id, ids: seq<Id>): Attachment -> bool {
    (a: Attachment) => a.post.Some? && OnPage(tenant, ids, a.tenant, a.post.value)
  }

  function CommentedPost(): Comment -> Id {
    (c: Comment) => c.post
  }

  function TagOfPost(post: Id): TagRow -> bool {
    (r: TagRow) => r.post == post
  }

  function IsFor(post: Id): Attachment -> bool {
    (a: Attachment) => a.post == Some(post)
  }

  function ById(): (Attachment, Attachment) -> bool {
    (a: Attachment, b: Attachment) => a.id <= b.id
  }

  function At<V>(m: map<Id, V>, k: Id, default: V): V {
    if k in m then m[k] else default
  }

  /** Collects the tags of each post, in the order of the rows. */
  method FoldTags(rows: seq<TagRow>) returns (acc: map<Id, seq<Tag>>)
    ensures forall p: Id :: At(acc, p, []) == Map(Filter(rows, TagOfPost(p)), TagIn())
  {
    acc := map[];
    for i := 0 to |rows|
      invariant forall p: Id :: At(acc, p, []) == Map(Filter(rows[..i], TagOfPost(p)), TagIn())
    {
      var r := rows[i];
      forall p: Id
        ensures Map(Filter(rows[..i + 1], TagOfPost(p)), TagIn())
                == Map(Filter(rows[..i], TagOfPost(p)), TagIn()) + (if r.post == p then [r.tag] else [])
      {
        FilterSnoc(rows, i, TagOfPost(p));
      }
      acc := acc[r.post := At(acc, r.post, []) + [r.tag]];
    }
    assert rows[..|rows|] == rows;
  }

  /** Indexes the grouped counts by post. */
  method FoldComments(groups: seq<Group>) returns (acc: map<Id, nat>)
    requires KeysOnce(groups)
    ensures forall p: Id :: At(acc, p, 0) == CountAt(groups, p)
  {
    acc := map[];
    for i := 0 to |groups|
      invariant forall p: Id :: CountAt(groups, p) == if p in acc then acc[p] else CountAt(groups[i..], p)
      invariant forall p: Id :: p in acc <==> exists j :: 0 <= j < i && groups[j].key == p
    {
      acc := acc[groups[i].key := groups[i].count];
    }
  }

  datatype Summary = Summary(count: nat, thumbnail: Option<string>)

  /** The first image in the order of the rows. */
  function FirstImage(s: seq<Attachment>): (r: Option<Attachment>)
    ensures r.Some? ==> r.value in s && r.value.image
    ensures r.None? ==> forall a :: a in s ==> !a.image
  {
    if s == [] then None else
    var before := FirstImage(s[..|s| - 1]);
    if before.Some? then before else if s[|s| - 1].image then Some(s[|s| - 1]) else None
  }

  function SummaryOf(s: seq<Attachment>): Summary {
    Summary(|s|, PathOf(FirstImage(s)))
  }

  function WithNext(summary: Summary, a: Attachment): Summary {
    Summary(summary.count + 1, if summary.thumbnail.None? && a.image then Some(a.path) else summary.thumbnail)
  }

  lemma SummaryOfNext(s: seq<Attachment>, a: Attachment)
    ensures SummaryOf(s + [a]) == WithNext(SummaryOf(s), a)
  {
    assert (s + [a])[..|s|] == s;
  }

  lemma SummariesAfter(rows: seq<Attachment>, i: nat, p: Id)
    requires i < |rows|
    ensures SummaryOf(Filter(rows[..i + 1], IsFor(p)))
            == if rows[i].post == Some(p) then WithNext(SummaryOf(Filter(rows[..i], IsFor(p))), rows[i])
               else SummaryOf(Filter(rows[..i], IsFor(p)))
  {
    FilterSnoc(rows, i, IsFor(p));
    var before := Filter(rows[..i], IsFor(p));
    SummaryOfNext(before, rows[i]);
    assert before + [] == before;
  }

  /** Counts each post's attachments and keeps the first image seen for each. */
  method FoldAttachments(rows: seq<Attachment>) returns (acc: map<Id, Summary>)
    requires forall i :: 0 <= i < |rows| ==> rows[i].post.Some?
    ensures forall p: Id :: At(acc, p, Summary(0, None)) == SummaryOf(Filter(rows, IsFor(p)))
  {
    acc := map[];
    for i := 0 to |rows|
      invariant forall p: Id :: At(acc, p, Summary(0, None)) == SummaryOf(Filter(rows[..i], IsFor(p)))
    {
      var a := rows[i];
      ghost var before := acc;
      var entry := At(acc, a.post.value, Summary(0, None));
      entry := entry.(count := entry.count + 1);
      if entry.thumbnail.None? && a.image {
        entry := entry.(thumbnail := Some(a.path));
      }
      acc := acc[a.post.value := entry];
      forall p: Id
        ensures At(acc, p, Summary(0, None)) == SummaryOf(Filter(rows[..i + 1], IsFor(p)))
      {
        SummariesAfter(rows, i, p);
        assert At(before, p, Summary(0, None)) == SummaryOf(Filter(rows[..i], IsFor(p)));
      }
    }
    assert rows[..|rows|] == rows;
  }

  // ----- the batched page is the per-post page

  function TagsFor(post: Id): PostTag -> bool {
    (t: PostTag) => t.post == post
  }

  lemma {:induction false} TagRowsOfPost(rows: seq<PostTag>, tags: seq<Tag>, post: Id)
    ensures Filter(TagRows(rows, tags), TagOfPost(post)) == TagRows(Filter(rows, TagsFor(post)), tags)
  {
    if rows != [] {
      var first := Map(Filter(tags, Named(rows[0].tag)), Tagged(rows[0].post));
      TagRowsOfPost(rows[1..], tags, post);
      FilterAppend(first, TagRows(rows[1..], tags), TagOfPost(post));
      FilterAllOrNone(first, TagOfPost(post), rows[0].post == post);
      var rest := Filter(rows[1..], TagsFor(post));
      if rows[0].post == post {
        assert Filter(rows, TagsFor(post)) == [rows[0]] + rest;
        assert TagRows([rows[0]] + rest, tags) == first + TagRows(rest, tags);
      } else {
        assert Filter(rows, TagsFor(post)) == rest;
      }
    }
  }

  lemma TagsAgree(q: Query, ids: seq<Id>, post: Id)
    requires post in ids
    ensures Map(Filter(TagRows(Filter(q.db.postTags, TagsOnPage(q.tenant, ids)), q.db.tags), TagOfPost(post)), TagIn())
            == TagsOf(q.db, q.tenant, post)
  {
    TagRowsOfPost(Filter(q.db.postTags, TagsOnPage(q.tenant, ids)), q.db.tags, post);
    FilterTwice(q.db.postTags, TagsOnPage(q.tenant, ids), TagsFor(post), Tags(q.tenant, post));
  }

  function CommentGroups(q: Query, ids: seq<Id>): seq<Group> {
    Grouped(Filter(q.db.comments, CommentsOnPage(q.tenant, ids)), CommentedPost())
  }

  lemma CommentsAgree(q: Query, ids: seq<Id>, post: Id)
    requires post in ids
    ensures CountAt(CommentGroups(q, ids), post) == |Filter(q.db.comments, ShownOn(q.tenant, post))|
  {
    GroupCounts(Filter(q.db.comments, CommentsOnPage(q.tenant, ids)), CommentedPost(), post);
    FilterTwice(q.db.comments, CommentsOnPage(q.tenant, ids), With(CommentedPost(), post), ShownOn(q.tenant, post));
  }

  function AttachmentRows(q: Query, ids: seq<Id>): seq<Attachment> {
    SortBy(Filter(q.db.attachments, AttachmentsOnPage(q.tenant, ids)), ById())
  }

  /** In rows ordered by id the first image has the lowest id. */
  lemma {:induction false} FirstIsLowest(s: seq<Attachment>, a: Attachment)
    requires Ordered(s, ById()) && a in s && a.image
    ensures FirstImage(s).Some? && FirstImage(s).value.id <= a.id
  {
    var front := s[..|s| - 1];
    if FirstImage(front).Some? {
      if a in front {
        FirstIsLowest(front, a);
      } else {
        var i :| 0 <= i < |front| && front[i] == FirstImage(front).value;
        assert ById()(s[i], s[|s| - 1]);
      }
    } else {
      assert a == s[|s| - 1];
    }
  }

  /** The attachment rows of one post are its attachments, in order of id. */
  lemma AttachmentsOf(q: Query, ids: seq<Id>, post: Id)
    requires post in ids
    ensures var rows := Filter(AttachmentRows(q, ids), IsFor(post));
            var own := AttachmentsTo(q.db, q.tenant, post);
            |rows| == |own| && Ordered(rows, ById())
  {
    var batch := Filter(q.db.attachments, AttachmentsOnPage(q.tenant, ids));
    FilterSort(batch, ById(), IsFor(post));
    FilterTwice(q.db.attachments, AttachmentsOnPage(q.tenant, ids), IsFor(post), AttachedTo(q.tenant, post));
    SortOrders(batch, ById());
    FilterKeepsOrder(SortBy(batch, ById()), ById(), IsFor(post));
  }

  lemma SameAttachments(q: Query, ids: seq<Id>, post: Id, a: Attachment)
    requires post in ids
    ensures a in Filter(AttachmentRows(q, ids), IsFor(post)) <==> a in AttachmentsTo(q.db, q.tenant, post)
  {
    var batch := Filter(q.db.attachments, AttachmentsOnPage(q.tenant, ids));
    FilterHas(SortBy(batch, ById()), IsFor(post), a);
    SortHas(batch, ById(), a);
    FilterHas(q.db.attachments, AttachmentsOnPage(q.tenant, ids), a);
    FilterHas(q.db.attachments, AttachedTo(q.tenant, post), a);
  }

  function AttachmentSummary(q: Query, post: Id): Summary {
    var own := AttachmentsTo(q.db, q.tenant, post);
    Summary(|own|, PathOf(LowestImage(own)))
  }

  lemma AttachmentsAgree(q: Query, ids: seq<Id>, post: Id)
    requires KeysDistinct(q.db) && post in ids
    ensures SummaryOf(Filter(AttachmentRows(q, ids), IsFor(post))) == AttachmentSummary(q, post)
  {
    AttachmentsOf(q, ids, post);
    var rows := Filter(AttachmentRows(q, ids), IsFor(post));
    var first, lowest := FirstImage(rows), LowestImage(AttachmentsTo(q.db, q.tenant, post));
    if lowest.Some? {
      SameAttachments(q, ids, post, lowest.value);
      FirstIsLowest(rows, lowest.value);
      SameAttachments(q, ids, post, first.value);
      FilterHas(q.db.attachments, AttachedTo(q.tenant, post), lowest.value);
      FilterHas(q.db.attachments, AttachedTo(q.tenant, post), first.value);
    } else if first.Some? {
      SameAttachments(q, ids, post, first.value);
    }
  }

  /** What the handler builds from a row and the three indexes. */
  function Assembled(tags: map<Id, seq<Tag>>, comments: map<Id, nat>, attachments: map<Id, Summary>): Row -> Card {
    (r: Row) => Card(r.post, r.author, r.votes, At(tags, r.post.id, []), At(comments, r.post.id, 0),
                     At(attachments, r.post.id, Summary(0, None)).count,
                     At(attachments, r.post.id, Summary(0, None)).thumbnail)
  }

  /** Indexes that hold each listed post's lookups give each listed row its card. */
  lemma AssembledCards(q: Query, rows: seq<Row>, ids: seq<Id>,
                       tags: map<Id, seq<Tag>>, comments: map<Id, nat>, attachments: map<Id, Summary>)
    requires forall i :: 0 <= i < |rows| ==> rows[i].post.id in ids
    requires forall p :: p in ids ==> At(tags, p, []) == TagsOf(q.db, q.tenant, p)
    requires forall p :: p in ids ==> At(comments, p, 0) == |Filter(q.db.comments, ShownOn(q.tenant, p))|
    requires forall p :: p in ids ==> At(attachments, p, Summary(0, None)) == AttachmentSummary(q, p)
    ensures Map(rows, Assembled(tags, comments, attachments)) == Map(rows, CardFrom(q))
  {
    MapSame(rows, Assembled(tags, comments, attachments), CardFrom(q));
  }

  method FetchTags(q: Query, ids: seq<Id>) returns (acc: map<Id, seq<Tag>>)
    ensures forall p :: p in ids ==> At(acc, p, []) == TagsOf(q.db, q.tenant, p)
  {
    acc := FoldTags(TagRows(Filter(q.db.postTags, TagsOnPage(q.tenant, ids)), q.db.tags));
    forall p | p in ids {
      TagsAgree(q, ids, p);
    }
  }

  method FetchComments(q: Query, ids: seq<Id>) returns (acc: map<Id, nat>)
    ensures forall p :: p in ids ==> At(acc, p, 0) == |Filter(q.db.comments, ShownOn(q.tenant, p))|
  {
    GroupCounts(Filter(q.db.comments, CommentsOnPage(q.tenant, ids)), CommentedPost(), 0);
    acc := FoldComments(CommentGroups(q, ids));
    forall p | p in ids {
      CommentsAgree(q, ids, p);
    }
  }

  method FetchAttachments(q: Query, ids: seq<Id>) returns (acc: map<Id, Summary>)
    requires KeysDistinct(q.db)
    ensures forall p :: p in ids ==> At(acc, p, Summary(0, None)) == AttachmentSummary(q, p)
  {
    ghost var batch := Filter(q.db.attachments, AttachmentsOnPage(q.tenant, ids));
    FilterMembers(q.db.attachments, AttachmentsOnPage(q.tenant, ids));
    SortMembers(batch, ById());
    acc := FoldAttachments(AttachmentRows(q, ids));
    forall p | p in ids {
      AttachmentsAgree(q, ids, p);
    }
  }

  /** Completes the page's rows from three lookups over the page's ids. */
  method AddLookups(q: Query, rows: seq<Row>) returns (posts: seq<Card>)
    requires KeysDistinct(q.db)
    ensures posts == Map(rows, CardFrom(q))
  {
    var ids := Map(rows, (r: Row) => r.post.id);
    var tagsByPost := FetchTags(q, ids);
    var commentsByPost := FetchComments(q, ids);
    var attachmentsByPost := FetchAttachments(q, ids);
    posts := Map(rows, Assembled(tagsByPost, commentsByPost, attachmentsByPost));
    assert forall i :: 0 <= i < |rows| ==> ids[i] == rows[i].post.id;
    AssembledCards(q, rows, ids, tagsByPost, commentsByPost, attachmentsByPost);
  }

  /**
   * Every card is of a post asked for and has that post's own details, in the order asked for; the page is the part of
   * the board asked for, and the total counts the posts asked for.
   */
  ghost predicate Answers(q: Query, offset: nat, size: nat, posts: seq<Card>, total: nat) {
    && total == |set i | 0 <= i < |q.db.posts| && IsListed(q, q.db.posts[i])| == |Board(q)|
    && |posts| == (if total <= offset then 0 else if total - offset <= size then total - offset else size)
    && (forall k :: 0 <= k < |posts| ==> posts[k] == Board(q)[offset + k])
    && (forall c :: c in posts ==> c.post in q.db.posts && IsListed(q, c.post) && IsCard(q, c))
    && forall i, j :: 0 <= i < j < |posts| ==> NotAfter(q.paging.sortBy, posts[i], posts[j])
  }

  lemma PageOf<T>(s: seq<T>, offset: nat, size: nat)
    ensures var page := Page(s, offset, size);
      && |page| == (if |s| <= offset then 0 else if |s| - offset <= size then |s| - offset else size)
      && (forall k :: 0 <= k < |page| ==> page[k] == s[offset + k])
  {
  }

  lemma PageOfBoard(q: Query, offset: nat, size: nat)
    requires KeysDistinct(q.db)
    ensures forall c :: c in Page(Board(q), offset, size) ==>
      c.post in q.db.posts && IsListed(q, c.post) && IsCard(q, c)
    ensures var page := Page(Board(q), offset, size);
      forall i, j :: 0 <= i < j < |page| ==> NotAfter(q.paging.sortBy, page[i], page[j])
  {
    CardsAreRight(q);
    BoardFollowsSort(q);
    PageOf(Board(q), offset, size);
  }

  lemma PageAnswers(q: Query, offset: nat, size: nat)
    requires KeysDistinct(q.db)
    ensures Answers(q, offset, size, Page(Board(q), offset, size), |Filter(q.db.posts, Shown(q))|)
  {
    BoardCounts(q);
    PageOfBoard(q, offset, size);
    PageOf(Board(q), offset, size);
  }

  /** One page of the board and the number of posts that match. */
  method GetPublicBoard(q: Query) returns (posts: seq<Card>, total: nat)
    requires KeysDistinct(q.db)
    ensures posts == Page(Board(q), Offset(q.paging), PageSize(q.paging))
    ensures Answers(q, Offset(q.paging), PageSize(q.paging), posts, total)
  {
    var offset, size := Offset(q.paging), PageSize(q.paging);
    var rows := Page(SortedRows(q), offset, size);
    total := |Filter(q.db.posts, Shown(q))|;
    PageRows(q, offset, size);
    posts := [];
    if |rows| > 0 {
      posts := AddLookups(q, rows);
    }
    PageAnswers(q, offset, size);
  }

  // ----- what a visitor can page through

  /** The board holds one card for each post shown, pinned posts first and each part in the requested order. */
  lemma BoardInOrder(q: Query)
    ensures multiset(Board(q)) == multiset(Map(Filter(q.db.posts, Shown(q)), CardOf(q.db, q.tenant)))
    ensures Ordered(Board(q), CardOrder(SortOf(q.paging.sortBy)))
  {
    var cards := Map(Filter(q.db.posts, Shown(q)), CardOf(q.db, q.tenant));
    SortContents(cards, CardOrder(SortOf(q.paging.sortBy)));
    SortOrders(cards, CardOrder(SortOf(q.paging.sortBy)));
  }

  /** The pages at one offset after another, up to the largest offset. */
  function Walk<T>(s: seq<T>, offset: nat, size: nat): seq<T>
    requires size > 0
    decreases MAX_OFFSET - offset
  {
    if offset > MAX_OFFSET || offset >= |s| then [] else Page(s, offset, size) + Walk(s, offset + size, size)
  }

  /** The first offset of the walk that is beyond the largest one. */
  function Reach(offset: nat, size: nat): (r: nat)
    requires size > 0
    ensures MAX_OFFSET < r && offset <= r
    decreases MAX_OFFSET - offset
  {
    if offset > MAX_OFFSET then offset else Reach(offset + size, size)
  }

  /** Walking the pages shows each card once and in order, and all of them exactly when the board is short enough. */
  lemma {:induction false} PagesTile<T>(s: seq<T>, offset: nat, size: nat)
    requires size > 0 && offset <= |s|
    ensures Walk(s, offset, size) <= s[offset..]
    ensures Walk(s, offset, size) == s[offset..] <==> |s| <= Reach(offset, size)
    decreases MAX_OFFSET - offset
  {
    if offset <= MAX_OFFSET && offset < |s| {
      if offset + size <= |s| {
        PagesTile(s, offset + size, size);
        assert s[offset..] == s[offset..offset + size] + s[offset + size..];
      } else {
        assert Walk(s, offset + size, size) == [];
      }
    }
  }
}
