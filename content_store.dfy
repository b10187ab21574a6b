/**
 * The in-memory path of the site's storage service (`MongoStorage` when no
 * database is configured): two JavaScript Maps, one of contact submissions
 * and one of blog posts, each keyed by record id.
 *
 * A Map is modelled as a `map` plus the insertion order of its keys, because
 * the order decides which of two posts sharing a slug `find` returns and how
 * records with equal creation times are ordered by the stable sort.
 * Fresh ids (`randomUUID`) and the clock (`new Date()`) are parameters.
 */
module ContentStore {
  import opened Maybe
  import opened Schema
  import opened Listing

  /** The two Maps of the in-memory store. */
  datatype Store = Store(
    contacts: map<string, ContactSubmission>,
    contactOrder: seq<string>,
    posts: map<string, BlogPost>,
    postOrder: seq<string>)

  /** Each Map's key order lists its keys once each, and every record is filed under its own id. */
  predicate WellFormed(st: Store) {
    && OrderedKeys(st.contacts, st.contactOrder)
    && (forall k :: k in st.contacts ==> st.contacts[k].id == k)
    && OrderedKeys(st.posts, st.postOrder)
    && (forall k :: k in st.posts ==> st.posts[k].id == k)
  }

  /** The state after `new MongoStorage()`. */
  function EmptyStore(): (st: Store)
    ensures WellFormed(st)
    ensures st.contacts == map[] && st.posts == map[]
  {
    Store(map[], [], map[], [])
  }

  /** The `published` filter and the slug test, as function values. */
  function IsPublished(p: BlogPost): bool { p.published }
  function HasSlug(slug: string): BlogPost -> bool { (p: BlogPost) => p.slug == slug }

  /** `Array.from(this.inMemoryContacts.values())`. */
  function Contacts(st: Store): seq<ContactSubmission>
    requires WellFormed(st)
  {
    InOrder(st.contacts, st.contactOrder)
  }

  /** `Array.from(this.inMemoryBlogPosts.values())`. */
  function Posts(st: Store): seq<BlogPost>
    requires WellFormed(st)
  {
    InOrder(st.posts, st.postOrder)
  }

  /** `createContactSubmission`: the new record is set under its fresh id; the posts are untouched. */
  function AddContact(st: Store, input: InsertContact, id: string, now: Timestamp): (r: Store)
    requires WellFormed(st) && id !in st.contacts
    ensures WellFormed(r)
    ensures r.contacts == st.contacts[id := NewContact(input, id, now)]
    ensures r.contactOrder == st.contactOrder + [id]
    ensures r.posts == st.posts && r.postOrder == st.postOrder
  {
    AppendNoDup(st.contactOrder, id);
    st.(contacts := st.contacts[id := NewContact(input, id, now)],
        contactOrder := st.contactOrder + [id])
  }

  /** `getContactSubmissions`: all contacts, newest first. */
  function ListContacts(st: Store): seq<ContactSubmission>
    requires WellFormed(st)
  {
    SortDesc(Contacts(st), ContactTime)
  }

  /** The posts `getBlogPosts` sorts: the published ones, or all of them, in Map order. */
  function Listed(st: Store, publishedOnly: bool): seq<BlogPost>
    requires WellFormed(st)
  {
    if publishedOnly then Keep(Posts(st), IsPublished) else Posts(st)
  }

  /** `getBlogPosts(publishedOnly)`: the published posts, or all posts, newest first. */
  function ListPosts(st: Store, publishedOnly: bool): seq<BlogPost>
    requires WellFormed(st)
  {
    SortDesc(Listed(st, publishedOnly), PostTime)
  }

  /** `getBlogPostBySlug`: the first post in Map order with that slug. */
  function PostBySlug(st: Store, slug: string): Option<BlogPost>
    requires WellFormed(st)
  {
    FindFirst(Posts(st), HasSlug(slug))
  }

  /** `getBlogPostById`: `this.inMemoryBlogPosts.get(id)`. */
  function PostById(st: Store, id: string): (r: Option<BlogPost>)
    requires WellFormed(st)
    ensures r.Some? <==> id in st.posts
    ensures r.Some? ==> r.value.id == id && r.value in st.posts.Values
  {
    if id in st.posts then Some(st.posts[id]) else None
  }

  /** `createBlogPost`: the new record is set under its fresh id; the contacts are untouched. */
  function AddPost(st: Store, input: InsertBlogPost, id: string, now: Timestamp): (r: Store)
    requires WellFormed(st) && id !in st.posts
    ensures WellFormed(r)
    ensures r.posts == st.posts[id := NewBlogPost(input, id, now)]
    ensures r.postOrder == st.postOrder + [id]
    ensures r.contacts == st.contacts && r.contactOrder == st.contactOrder
  {
    AppendNoDup(st.postOrder, id);
    st.(posts := st.posts[id := NewBlogPost(input, id, now)],
        postOrder := st.postOrder + [id])
  }

  /**
   * `updateBlogPost`: an unknown id changes nothing; a known one has the patch
   * merged in place (its position in the Map stays), and no other record changes.
   */
  function PatchPost(st: Store, id: string, patch: BlogPatch, now: Timestamp): (r: Store)
    requires WellFormed(st)
    ensures WellFormed(r)
    ensures id !in st.posts ==> r == st
    ensures r.posts.Keys == st.posts.Keys && r.postOrder == st.postOrder
    ensures id in st.posts ==> r.posts[id] == ApplyPatch(st.posts[id], patch, now)
    ensures forall k :: k in st.posts && k != id ==> r.posts[k] == st.posts[k]
    ensures r.contacts == st.contacts && r.contactOrder == st.contactOrder
  {
    if id in st.posts then st.(posts := st.posts[id := ApplyPatch(st.posts[id], patch, now)]) else st
  }

  /** `deleteBlogPost`: the key and its place in the Map order are gone; nothing else changes. */
  function DeletePost(st: Store, id: string): (r: Store)
    requires WellFormed(st)
    ensures WellFormed(r)
    ensures id !in r.posts
    ensures r.posts.Keys == st.posts.Keys - {id}
    ensures forall k :: k in r.posts ==> r.posts[k] == st.posts[k]
    ensures r.contacts == st.contacts && r.contactOrder == st.contactOrder
  {
    KeepNoDup(st.postOrder, Differs(id));
    st.(posts := st.posts - {id}, postOrder := Without(st.postOrder, id))
  }

  /** The contact list holds exactly the stored contacts, once each, newest first, in a stable order. */
  lemma ListContactsSpec(st: Store)
    requires WellFormed(st)
    ensures SortedDesc(ListContacts(st), ContactTime)
    ensures |ListContacts(st)| == |st.contacts|
    ensures forall c :: c in ListContacts(st) <==> c in st.contacts.Values
    ensures multiset(ListContacts(st)) == multiset(Contacts(st))
    ensures forall t :: Keep(ListContacts(st), HasKey(ContactTime, t)) == Keep(Contacts(st), HasKey(ContactTime, t))
  {
    SortDescSorted(Contacts(st), ContactTime);
    SortDescPerm(Contacts(st), ContactTime);
    InOrderValues(st.contacts, st.contactOrder);
    forall t ensures Keep(ListContacts(st), HasKey(ContactTime, t)) == Keep(Contacts(st), HasKey(ContactTime, t)) {
      SortDescStable(Contacts(st), ContactTime, t);
    }
    forall c ensures c in ListContacts(st) <==> c in Contacts(st) {
      assert c in ListContacts(st) <==> c in multiset(ListContacts(st));
    }
  }

  /**
   * The post list holds exactly the stored posts that pass the filter
   * (all of them when `publishedOnly` is false), newest first.
   */
  lemma ListPostsSpec(st: Store, publishedOnly: bool)
    requires WellFormed(st)
    ensures SortedDesc(ListPosts(st, publishedOnly), PostTime)
    ensures forall p :: p in ListPosts(st, publishedOnly) <==>
                        p in st.posts.Values && (publishedOnly ==> p.published)
    ensures multiset(ListPosts(st, publishedOnly)) == multiset(Listed(st, publishedOnly))
    ensures |ListPosts(st, publishedOnly)| == |Listed(st, publishedOnly)|
    ensures !publishedOnly ==> |ListPosts(st, publishedOnly)| == |st.posts|
    ensures forall t :: Keep(ListPosts(st, publishedOnly), HasKey(PostTime, t)) ==
                        Keep(Listed(st, publishedOnly), HasKey(PostTime, t))
  {
    var src, r := Listed(st, publishedOnly), ListPosts(st, publishedOnly);
    assert r == SortDesc(src, PostTime);
    SortDescSorted(src, PostTime);
    SortDescPerm(src, PostTime);
    ListedMembers(st, publishedOnly);
    forall t ensures Keep(r, HasKey(PostTime, t)) == Keep(src, HasKey(PostTime, t)) {
      SortDescStable(src, PostTime, t);
    }
    forall p ensures p in r <==> p in src {
      assert p in r <==> p in multiset(r);
    }
  }

  /** Before sorting: the stored posts that pass the filter, one entry per post when nothing is filtered. */
  lemma ListedMembers(st: Store, publishedOnly: bool)
    requires WellFormed(st)
    ensures forall p :: p in Listed(st, publishedOnly) <==> p in st.posts.Values && (publishedOnly ==> p.published)
    ensures !publishedOnly ==> |Listed(st, publishedOnly)| == |st.posts|
  {
    InOrderValues(st.posts, st.postOrder);
  }

  /**
   * The slug lookup returns a stored post carrying that slug, the first such
   * post in Map order, and returns nothing exactly when no stored post has it.
   */
  lemma PostBySlugSpec(st: Store, slug: string)
    requires WellFormed(st)
    ensures PostBySlug(st, slug).Some? ==>
              PostBySlug(st, slug).value.slug == slug && PostBySlug(st, slug).value in st.posts.Values
    ensures PostBySlug(st, slug).None? <==> forall k :: k in st.posts ==> st.posts[k].slug != slug
    ensures PostBySlug(st, slug).Some? ==>
              exists i :: 0 <= i < |st.postOrder| && st.posts[st.postOrder[i]] == PostBySlug(st, slug).value &&
                          forall j :: 0 <= j < i ==> st.posts[st.postOrder[j]].slug != slug
  {
    var all := Posts(st);
    InOrderValues(st.posts, st.postOrder);
    if PostBySlug(st, slug).Some? {
      FindFirstIsFirst(all, HasSlug(slug));
    } else {
      forall k | k in st.posts ensures st.posts[k].slug != slug {
        var i :| 0 <= i < |st.postOrder| && st.postOrder[i] == k;
        assert all[i] == st.posts[k];
      }
    }
  }

  /** A created post is returned by id with the defaults applied. */
  lemma CreatedPostFoundById(st: Store, input: InsertBlogPost, id: string, now: Timestamp)
    requires WellFormed(st) && id !in st.posts
    ensures PostById(AddPost(st, input, id, now), id) == Some(NewBlogPost(input, id, now))
    ensures input.published.None? ==> !PostById(AddPost(st, input, id, now), id).value.published
    ensures input.coverImage.Present? || PostById(AddPost(st, input, id, now), id).value.coverImage.None?
  {
  }

  /** After creating a post, its slug finds a post with that slug. */
  lemma CreatedPostFoundBySlug(st: Store, input: InsertBlogPost, id: string, now: Timestamp)
    requires WellFormed(st) && id !in st.posts
    ensures PostBySlug(AddPost(st, input, id, now), input.slug).Some?
    ensures PostBySlug(AddPost(st, input, id, now), input.slug).value.slug == input.slug
  {
    var st' := AddPost(st, input, id, now);
    PostBySlugSpec(st', input.slug);
    assert st'.posts[id].slug == input.slug;
  }

  /** A new post goes last in Map order: the older post with a slug keeps answering for it. */
  lemma OlderSlugWins(st: Store, input: InsertBlogPost, id: string, now: Timestamp, slug: string)
    requires WellFormed(st) && id !in st.posts
    requires PostBySlug(st, slug).Some?
    ensures PostBySlug(AddPost(st, input, id, now), slug) == PostBySlug(st, slug)
  {
    var post := NewBlogPost(input, id, now);
    InOrderAppend(st.posts, st.postOrder, id, post);
    assert Posts(AddPost(st, input, id, now)) == Posts(st) + [post];
    FindFirstAppend(Posts(st), [post], HasSlug(slug));
  }

  /** A post created without a publication flag is a draft: absent from the public list, present in the full one. */
  lemma DraftHiddenFromPublicList(st: Store, input: InsertBlogPost, id: string, now: Timestamp)
    requires WellFormed(st) && id !in st.posts && input.published.None?
    ensures NewBlogPost(input, id, now) !in ListPosts(AddPost(st, input, id, now), true)
    ensures NewBlogPost(input, id, now) in ListPosts(AddPost(st, input, id, now), false)
  {
    var st' := AddPost(st, input, id, now);
    ListPostsSpec(st', true);
    ListPostsSpec(st', false);
    assert st'.posts[id] == NewBlogPost(input, id, now);
  }

  /** Publishing a post through an update makes it appear in the public list. */
  lemma PublishShowsPost(st: Store, id: string, patch: BlogPatch, now: Timestamp)
    requires WellFormed(st) && id in st.posts && patch.published == Some(true)
    ensures PostById(PatchPost(st, id, patch, now), id).value in ListPosts(PatchPost(st, id, patch, now), true)
  {
    var st' := PatchPost(st, id, patch, now);
    ListPostsSpec(st', true);
    assert st'.posts[id] in st'.posts.Values;
  }

  /** A contact once created appears in the list, which grows by exactly one. */
  lemma CreatedContactListed(st: Store, input: InsertContact, id: string, now: Timestamp)
    requires WellFormed(st) && id !in st.contacts
    ensures NewContact(input, id, now) in ListContacts(AddContact(st, input, id, now))
    ensures |ListContacts(AddContact(st, input, id, now))| == |ListContacts(st)| + 1
  {
    var st' := AddContact(st, input, id, now);
    ListContactsSpec(st);
    ListContactsSpec(st');
    assert st'.contacts[id] in st'.contacts.Values;
  }

  /** Deleting removes the post for good: a second delete finds nothing and changes nothing. */
  lemma DeleteTwice(st: Store, id: string)
    requires WellFormed(st)
    ensures PostById(DeletePost(st, id), id).None?
    ensures id !in DeletePost(st, id).posts
    ensures DeletePost(DeletePost(st, id), id) == DeletePost(st, id)
  {
    var st' := DeletePost(st, id);
    WithoutAbsent(st'.postOrder, id);
    assert st'.posts - {id} == st'.posts;
  }

  /**
   * The in-memory store of `src/lib/storage.ts`. Its state is the two Maps;
   * `State()` reads it as a `Store`, and every method is specified by the
   * function above that gives its result and new state.
   */
  class MongoStorage {
    var contacts: map<string, ContactSubmission>
    var contactOrder: seq<string>
    var posts: map<string, BlogPost>
    var postOrder: seq<string>

    function State(): Store
      reads this
    {
      Store(contacts, contactOrder, posts, postOrder)
    }

    ghost predicate Valid()
      reads this
    {
      WellFormed(State())
    }

    constructor ()
      ensures Valid() && State() == EmptyStore()
    {
      contacts, contactOrder := map[], [];
      posts, postOrder := map[], [];
    }

    method CreateContactSubmission(input: InsertContact, id: string, now: Timestamp) returns (c: ContactSubmission)
      requires Valid() && id !in contacts
      modifies this
      ensures Valid()
      ensures c == NewContact(input, id, now)
      ensures State() == AddContact(old(State()), input, id, now)
      ensures contacts[id] == c
    {
      c := NewContact(input, id, now);
      contacts := contacts[id := c];
      contactOrder := contactOrder + [id];
    }

    method GetContactSubmissions() returns (r: seq<ContactSubmission>)
      requires Valid()
      ensures r == ListContacts(State())
      ensures SortedDesc(r, ContactTime)
      ensures |r| == |contacts|
      ensures forall c :: c in r <==> c in contacts.Values
    {
      r := ListContacts(State());
      ListContactsSpec(State());
    }

    method GetBlogPosts(publishedOnly: bool := true) returns (r: seq<BlogPost>)
      requires Valid()
      ensures r == ListPosts(State(), publishedOnly)
      ensures SortedDesc(r, PostTime)
      ensures forall p :: p in r <==> p in posts.Values && (publishedOnly ==> p.published)
      ensures multiset(r) == multiset(Listed(State(), publishedOnly))
      ensures !publishedOnly ==> |r| == |posts|
    {
      r := ListPosts(State(), publishedOnly);
      ListPostsSpec(State(), publishedOnly);
    }

    method GetBlogPostBySlug(slug: string) returns (r: Option<BlogPost>)
      requires Valid()
      ensures r == PostBySlug(State(), slug)
      ensures r.Some? ==> r.value.slug == slug && r.value in posts.Values
      ensures r.None? <==> forall k :: k in posts ==> posts[k].slug != slug
    {
      r := PostBySlug(State(), slug);
      PostBySlugSpec(State(), slug);
    }

    method GetBlogPostById(id: string) returns (r: Option<BlogPost>)
      requires Valid()
      ensures r == PostById(State(), id)
      ensures r.Some? <==> id in posts
      ensures r.Some? ==> r.value == posts[id]
    {
      r := if id in posts then Some(posts[id]) else None;
    }

    method CreateBlogPost(input: InsertBlogPost, id: string, now: Timestamp) returns (p: BlogPost)
      requires Valid() && id !in posts
      modifies this
      ensures Valid()
      ensures p == NewBlogPost(input, id, now)
      ensures State() == AddPost(old(State()), input, id, now)
      ensures posts[id] == p
    {
      p := NewBlogPost(input, id, now);
      posts := posts[id := p];
      postOrder := postOrder + [id];
    }

    method UpdateBlogPost(id: string, patch: BlogPatch, now: Timestamp) returns (r: Option<BlogPost>)
      requires Valid()
      modifies this
      ensures Valid()
      ensures State() == PatchPost(old(State()), id, patch, now)
      ensures r.None? <==> id !in old(posts)
      ensures r.Some? ==> r.value == ApplyPatch(old(posts)[id], patch, now) && posts[id] == r.value
    {
      if id !in posts {
        return None;
      }
      var updated := ApplyPatch(posts[id], patch, now);
      posts := posts[id := updated];
      r := Some(updated);
    }

    method DeleteBlogPost(id: string) returns (removed: bool)
      requires Valid()
      modifies this
      ensures Valid()
      ensures removed <==> id in old(posts)
      ensures State() == DeletePost(old(State()), id)
      ensures id !in posts
    {
      removed := id in posts;
      posts := posts - {id};
      postOrder := Without(postOrder, id);
      KeepNoDup(old(postOrder), Differs(id));
    }
  }
}
