/**
 * The record shapes shared by client and server, and the validity rules of
 * the server-side input schemas (`insertContactSchema`,
 * `insertBlogPostSchema`), together with how a stored record is built from
 * an accepted input and how a partial update is merged into a stored post.
 *
 * Timestamps are `Date.getTime()` values (milliseconds). The e-mail format
 * check is the schema library's own and is passed in as `isEmail`.
 */
module Schema {
  import opened Maybe

  type Timestamp = int

  /** What a contact form submits (`InsertContact`). */
  datatype InsertContact = InsertContact(
    name: string,
    email: string,
    company: Nullable<string>,
    message: string)

  /** A stored contact submission: the input plus `id` and `createdAt`; a missing company is stored as `null` (`None`). */
  datatype ContactSubmission = ContactSubmission(
    id: string,
    name: string,
    email: string,
    company: Option<string>,
    message: string,
    createdAt: Timestamp)

  /** What the admin form submits to create a post (`InsertBlogPost`). */
  datatype InsertBlogPost = InsertBlogPost(
    title: string,
    slug: string,
    excerpt: string,
    content: string,
    coverImage: Nullable<string>,
    category: string,
    author: string,
    published: Option<bool>)

  /** A stored blog post: a definite `published` flag plus `id`, `createdAt` and `updatedAt`. */
  datatype BlogPost = BlogPost(
    id: string,
    title: string,
    slug: string,
    excerpt: string,
    content: string,
    coverImage: Option<string>,
    category: string,
    author: string,
    published: bool,
    createdAt: Timestamp,
    updatedAt: Timestamp)

  /** `Partial<InsertBlogPost>`: the closed set of fields an update may carry. */
  datatype BlogPatch = BlogPatch(
    title: Option<string>,
    slug: Option<string>,
    excerpt: Option<string>,
    content: Option<string>,
    coverImage: Nullable<string>,
    category: Option<string>,
    author: Option<string>,
    published: Option<bool>)

  /** Creation times, the key both stores sort their lists by (`createdAt.getTime()`). */
  function ContactTime(c: ContactSubmission): int { c.createdAt }
  function PostTime(p: BlogPost): int { p.createdAt }

  /** A patch that carries no field at all. */
  const NoChanges := BlogPatch(None, None, None, None, Absent, None, None, None)

  /** A user account as the AgencySpark server keeps it; only `username` is ever inspected. */
  datatype InsertUser = InsertUser(username: string, password: string)
  datatype User = User(id: string, username: string, password: string)

  /**
   * JavaScript's `.length`: UTF-16 code units, so a character outside the
   * Basic Multilingual Plane (a surrogate pair) counts twice.
   */
  function JsLength(s: string): (n: nat)
    ensures |s| <= n <= 2 * |s|
    ensures n == 0 <==> s == []
  {
    if s == [] then 0 else (if s[0] >= '\U{10000}' then 2 else 1) + JsLength(s[1..])
  }

  /** `z.string().min(n)`, which measures `.length`. */
  predicate MinLength(s: string, n: nat) {
    JsLength(s) >= n
  }

  /** `insertContactSchema`: name and message required, a well-formed e-mail, company free (absent, null or any string). */
  predicate ContactInputValid(c: InsertContact, isEmail: string -> bool) {
    && MinLength(c.name, 1)
    && isEmail(c.email)
    && MinLength(c.message, 1)
  }

  /** `insertBlogPostSchema`: six required texts; cover image and publication flag free. */
  predicate BlogInputValid(p: InsertBlogPost) {
    && MinLength(p.title, 1)
    && MinLength(p.slug, 1)
    && MinLength(p.excerpt, 1)
    && MinLength(p.content, 1)
    && MinLength(p.category, 1)
    && MinLength(p.author, 1)
  }

  /** The record both stores build for a new contact (`company ?? null`). */
  function NewContact(input: InsertContact, id: string, now: Timestamp): (c: ContactSubmission)
    ensures c.id == id && c.createdAt == now
    ensures c.name == input.name && c.email == input.email && c.message == input.message
    ensures c.company == (if input.company.Present? then Some(input.company.value) else None)
  {
    ContactSubmission(id, input.name, input.email, input.company.Coalesce(None), input.message, now)
  }

  /** The record `createBlogPost` builds: `coverImage ?? null`, `published ?? false`, both timestamps `now`. */
  function NewBlogPost(input: InsertBlogPost, id: string, now: Timestamp): (p: BlogPost)
    ensures p.id == id && p.createdAt == now && p.updatedAt == now
    ensures p.published == (input.published == Some(true))
    ensures p.coverImage == (if input.coverImage.Present? then Some(input.coverImage.value) else None)
  {
    BlogPost(id, input.title, input.slug, input.excerpt, input.content,
             input.coverImage.Coalesce(None), input.category, input.author,
             input.published.GetOr(false), now, now)
  }

  /** The input shape a stored contact extends (`ContactSubmission extends InsertContact`). */
  function ContactInputOf(c: ContactSubmission): InsertContact {
    InsertContact(c.name, c.email, if c.company.Some? then Present(c.company.value) else Null, c.message)
  }

  /** The input shape a stored post extends (`BlogPost extends InsertBlogPost`). */
  function PostInputOf(p: BlogPost): InsertBlogPost {
    InsertBlogPost(p.title, p.slug, p.excerpt, p.content,
                   if p.coverImage.Some? then Present(p.coverImage.value) else Null,
                   p.category, p.author, Some(p.published))
  }

  /**
   * `{ ...existing, ...patch, coverImage: patch.coverImage ?? existing.coverImage, updatedAt: now }`:
   * every field the patch carries overwrites, a null or missing cover image keeps the old one.
   */
  function ApplyPatch(existing: BlogPost, patch: BlogPatch, now: Timestamp): (p: BlogPost)
    ensures p.id == existing.id && p.createdAt == existing.createdAt && p.updatedAt == now
    ensures p.title == patch.title.GetOr(existing.title)
    ensures p.slug == patch.slug.GetOr(existing.slug)
    ensures p.excerpt == patch.excerpt.GetOr(existing.excerpt)
    ensures p.content == patch.content.GetOr(existing.content)
    ensures p.category == patch.category.GetOr(existing.category)
    ensures p.author == patch.author.GetOr(existing.author)
    ensures p.published == patch.published.GetOr(existing.published)
    ensures p.coverImage == (if patch.coverImage.Present? then Some(patch.coverImage.value) else existing.coverImage)
  {
    existing.(
      title := patch.title.GetOr(existing.title),
      slug := patch.slug.GetOr(existing.slug),
      excerpt := patch.excerpt.GetOr(existing.excerpt),
      content := patch.content.GetOr(existing.content),
      coverImage := patch.coverImage.Coalesce(existing.coverImage),
      category := patch.category.GetOr(existing.category),
      author := patch.author.GetOr(existing.author),
      published := patch.published.GetOr(existing.published),
      updatedAt := now)
  }

  /** Every text a patch carries is non-empty: what `insertBlogPostSchema.partial()` would accept. */
  predicate PatchValid(patch: BlogPatch) {
    && (patch.title.Some? ==> MinLength(patch.title.value, 1))
    && (patch.slug.Some? ==> MinLength(patch.slug.value, 1))
    && (patch.excerpt.Some? ==> MinLength(patch.excerpt.value, 1))
    && (patch.content.Some? ==> MinLength(patch.content.value, 1))
    && (patch.category.Some? ==> MinLength(patch.category.value, 1))
    && (patch.author.Some? ==> MinLength(patch.author.value, 1))
  }

  /** A stored contact extends its input: reading the input shape back gives the input, a missing company as null. */
  lemma NewContactExtendsInput(input: InsertContact, id: string, now: Timestamp, isEmail: string -> bool)
    ensures ContactInputOf(NewContact(input, id, now)) ==
            input.(company := if input.company.Present? then input.company else Null)
    ensures ContactInputValid(input, isEmail) <==> ContactInputValid(ContactInputOf(NewContact(input, id, now)), isEmail)
  {
  }

  /**
   * Creating a post is a round trip: the stored record is the input plus the
   * generated fields, a missing cover image null and a missing flag false.
   */
  lemma NewBlogPostExtendsInput(input: InsertBlogPost, id: string, now: Timestamp)
    ensures PostInputOf(NewBlogPost(input, id, now)) ==
            input.(coverImage := if input.coverImage.Present? then input.coverImage else Null,
                   published := Some(input.published.GetOr(false)))
    ensures BlogInputValid(input) <==> BlogInputValid(PostInputOf(NewBlogPost(input, id, now)))
  {
  }

  /** A patch the schema would accept keeps a valid post valid. */
  lemma ApplyPatchKeepsValid(existing: BlogPost, patch: BlogPatch, now: Timestamp)
    requires BlogInputValid(PostInputOf(existing)) && PatchValid(patch)
    ensures BlogInputValid(PostInputOf(ApplyPatch(existing, patch, now)))
  {
  }

  /** Applying the same patch twice is the same as applying it once. */
  lemma ApplyPatchIdempotent(existing: BlogPost, patch: BlogPatch, now: Timestamp)
    ensures ApplyPatch(ApplyPatch(existing, patch, now), patch, now) == ApplyPatch(existing, patch, now)
  {
  }

  /** An empty patch only refreshes `updatedAt`. */
  lemma ApplyNoChanges(existing: BlogPost, now: Timestamp)
    ensures ApplyPatch(existing, NoChanges, now) == existing.(updatedAt := now)
  {
  }
}
