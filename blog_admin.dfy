/**
 * The blog admin page: a dialog with a post form that either creates a post
 * or edits the one being edited, a publish/unpublish button and a delete
 * button per post. The page holds `isDialogOpen`, `editingPost` and the
 * form's values; what it sends to the blog API is returned as a request.
 */
module BlogAdmin {
  import opened Maybe
  import opened Schema
  import opened Slug

  /** `FormValues`: every field a definite value; the cover image field is text. */
  datatype FormValues = FormValues(
    title: string,
    slug: string,
    excerpt: string,
    content: string,
    coverImage: string,
    category: string,
    author: string,
    published: bool)

  /** The values `openCreateDialog` resets the form to. */
  const DefaultValues := FormValues("", "", "", "", "", "Technology", "NexaTech Team", false)

  /** `formSchema`: the server schema with a title of `.length` at least 5, an excerpt of at least 20 and content of at least 100. */
  predicate FormValid(v: FormValues) {
    && MinLength(v.title, 5)
    && MinLength(v.slug, 1)
    && MinLength(v.excerpt, 20)
    && MinLength(v.content, 100)
    && MinLength(v.category, 1)
    && MinLength(v.author, 1)
  }

  /** The body of a create request: the values as they stand. */
  function ToInsert(v: FormValues): (i: InsertBlogPost)
    ensures i.title == v.title && i.slug == v.slug && i.excerpt == v.excerpt && i.content == v.content
    ensures i.category == v.category && i.author == v.author
    ensures i.coverImage == Present(v.coverImage) && i.published == Some(v.published)
  {
    InsertBlogPost(v.title, v.slug, v.excerpt, v.content, Present(v.coverImage), v.category, v.author, Some(v.published))
  }

  /** The body of an update request: every field of the form. */
  function ToPatch(v: FormValues): (p: BlogPatch)
    ensures p.title == Some(v.title) && p.slug == Some(v.slug) && p.excerpt == Some(v.excerpt)
    ensures p.content == Some(v.content) && p.category == Some(v.category) && p.author == Some(v.author)
    ensures p.coverImage == Present(v.coverImage) && p.published == Some(v.published)
  {
    BlogPatch(Some(v.title), Some(v.slug), Some(v.excerpt), Some(v.content), Present(v.coverImage),
              Some(v.category), Some(v.author), Some(v.published))
  }

  /** Whatever the form accepts, the server schema accepts, whether it is sent as a new post or as an update. */
  lemma FormRefinesServer(v: FormValues)
    requires FormValid(v)
    ensures BlogInputValid(ToInsert(v))
    ensures PatchValid(ToPatch(v))
  {
  }

  /** A title under 5, an excerpt under 20 or content under 100 characters is refused by the form. */
  lemma FormRejectsShort(v: FormValues)
    requires JsLength(v.title) < 5 || JsLength(v.excerpt) < 20 || JsLength(v.content) < 100
    ensures !FormValid(v)
  {
  }

  /** The values `openEditDialog` loads from a post: a missing cover image becomes "". */
  function EditValues(post: BlogPost): (v: FormValues)
    ensures v.title == post.title && v.slug == post.slug && v.excerpt == post.excerpt && v.content == post.content
    ensures v.category == post.category && v.author == post.author && v.published == post.published
    ensures v.coverImage == (if post.coverImage.Some? then post.coverImage.value else "")
  {
    FormValues(post.title, post.slug, post.excerpt, post.content, post.coverImage.GetOr(""),
               post.category, post.author, post.published)
  }

  /** What the page asks of the blog API. */
  datatype AdminRequest =
    | CreatePost(input: InsertBlogPost)
    | UpdatePost(id: string, patch: BlogPatch)
    | DeletePost(postId: string)

  /** The page's state. */
  datatype Page = Page(isDialogOpen: bool, editingPost: Option<BlogPost>, values: FormValues)

  /** The state when the page loads. */
  const Initial := Page(false, None, DefaultValues)

  /** "New Post": nothing is being edited and the form is reset to its defaults. */
  function OpenCreateDialog(pg: Page): (r: Page)
    ensures r.isDialogOpen && r.editingPost.None? && r.values == DefaultValues
  {
    Page(true, None, DefaultValues)
  }

  /** The edit button: the post is being edited and the form holds its fields. */
  function OpenEditDialog(pg: Page, post: BlogPost): (r: Page)
    ensures r.isDialogOpen && r.editingPost == Some(post) && r.values == EditValues(post)
  {
    Page(true, Some(post), EditValues(post))
  }

  /** Closing the dialog from outside; the post being edited is kept until the next opening. */
  function CloseDialog(pg: Page): (r: Page)
    ensures !r.isDialogOpen && r.editingPost == pg.editingPost && r.values == pg.values
  {
    pg.(isDialogOpen := false)
  }

  /** Typing a title: the slug follows it while a new post is being created, and is left alone while editing. */
  function ChangeTitle(pg: Page, title: string): (r: Page)
    ensures r.values.title == title
    ensures pg.editingPost.None? ==> r.values.slug == GenerateSlug(title)
    ensures pg.editingPost.Some? ==> r.values.slug == pg.values.slug
    ensures r.values.(title := pg.values.title, slug := pg.values.slug) == pg.values
    ensures r.isDialogOpen == pg.isDialogOpen && r.editingPost == pg.editingPost
  {
    var v := pg.values.(title := title);
    pg.(values := if pg.editingPost.None? then v.(slug := GenerateSlug(title)) else v)
  }

  /** Any other field: the form holds what was entered. */
  function EditForm(pg: Page, v: FormValues): (r: Page)
    ensures r.values == v && r.isDialogOpen == pg.isDialogOpen && r.editingPost == pg.editingPost
  {
    pg.(values := v)
  }

  /**
   * The dialog's submit button (`onSubmit` behind `formSchema`): an update of
   * the post being edited, or else a create; nothing when the dialog is
   * closed or the values do not pass.
   */
  function Submit(pg: Page): (r: Option<AdminRequest>)
    ensures r.Some? <==> pg.isDialogOpen && FormValid(pg.values)
    ensures r.Some? && pg.editingPost.Some? ==> r.value == UpdatePost(pg.editingPost.value.id, ToPatch(pg.values))
    ensures r.Some? && pg.editingPost.None? ==> r.value == CreatePost(ToInsert(pg.values))
  {
    if !pg.isDialogOpen || !FormValid(pg.values) then None
    else if pg.editingPost.Some? then Some(UpdatePost(pg.editingPost.value.id, ToPatch(pg.values)))
    else Some(CreatePost(ToInsert(pg.values)))
  }

  /** Every request the dialog sends passes the server's schema. */
  lemma SubmitPassesServer(pg: Page)
    requires Submit(pg).Some?
    ensures Submit(pg).value.CreatePost? ==> BlogInputValid(Submit(pg).value.input)
    ensures Submit(pg).value.UpdatePost? ==> PatchValid(Submit(pg).value.patch)
  {
    FormRefinesServer(pg.values);
  }

  /** A created post's slug, when the title was the last thing typed, is the slug of that title. */
  lemma CreatedSlugFromTitle(pg: Page, title: string)
    requires pg.editingPost.None?
    ensures ChangeTitle(pg, title).values.slug == GenerateSlug(title)
    ensures SlugShaped(ChangeTitle(pg, title).values.slug)
  {
  }

  /** Create success: the dialog closes. */
  function AfterCreateSuccess(pg: Page): (r: Page)
    ensures !r.isDialogOpen && r.editingPost == pg.editingPost
  {
    pg.(isDialogOpen := false)
  }

  /** Update success: the dialog closes and nothing is being edited any more. */
  function AfterUpdateSuccess(pg: Page): (r: Page)
    ensures !r.isDialogOpen && r.editingPost.None?
  {
    pg.(isDialogOpen := false, editingPost := None)
  }

  /** The publish/unpublish button: a patch whose one field is the flipped flag. */
  function TogglePublish(post: BlogPost): (r: AdminRequest)
    ensures r.UpdatePost? && r.id == post.id
    ensures r.patch == NoChanges.(published := Some(!post.published))
  {
    UpdatePost(post.id, NoChanges.(published := Some(!post.published)))
  }

  /** The delete button. */
  function Delete(post: BlogPost): AdminRequest {
    DeletePost(post.id)
  }

  /** The toggle patch flips `published` and, apart from `updatedAt`, touches nothing else. */
  lemma TogglePublishFlips(post: BlogPost, now: Timestamp)
    ensures ApplyPatch(post, TogglePublish(post).patch, now) == post.(published := !post.published, updatedAt := now)
  {
  }

  /** Pressing the toggle twice restores the flag. */
  lemma TogglePublishTwice(post: BlogPost, t1: Timestamp, t2: Timestamp)
    ensures var once := ApplyPatch(post, TogglePublish(post).patch, t1);
            ApplyPatch(once, TogglePublish(once).patch, t2) == post.(updatedAt := t2)
  {
    TogglePublishFlips(post, t1);
    TogglePublishFlips(post.(published := !post.published, updatedAt := t1), t2);
  }

  /**
   * Opening a post for editing and saving it unchanged sends an update that
   * changes nothing but `updatedAt`, except that a missing cover image comes
   * back as "".
   */
  lemma EditUnchangedRoundTrip(pg: Page, post: BlogPost, now: Timestamp)
    requires FormValid(EditValues(post))
    ensures Submit(OpenEditDialog(pg, post)) == Some(UpdatePost(post.id, ToPatch(EditValues(post))))
    ensures ApplyPatch(post, ToPatch(EditValues(post)), now) ==
            post.(coverImage := Some(post.coverImage.GetOr("")), updatedAt := now)
  {
  }

  /** The page's state, updated by its handlers. */
  class AdminPage {
    var isDialogOpen: bool
    var editingPost: Option<BlogPost>
    var values: FormValues

    function State(): Page
      reads this
    {
      Page(isDialogOpen, editingPost, values)
    }

    constructor ()
      ensures State() == Initial
    {
      isDialogOpen, editingPost, values := false, None, DefaultValues;
    }

    method OpenCreate()
      modifies this
      ensures State() == OpenCreateDialog(old(State()))
    {
      editingPost := None;
      values := DefaultValues;
      isDialogOpen := true;
    }

    method OpenEdit(post: BlogPost)
      modifies this
      ensures State() == OpenEditDialog(old(State()), post)
    {
      editingPost := Some(post);
      values := EditValues(post);
      isDialogOpen := true;
    }

    method Close()
      modifies this
      ensures State() == CloseDialog(old(State()))
    {
      isDialogOpen := false;
    }

    /** The title input's change handler. */
    method OnTitleChange(title: string)
      modifies this
      ensures State() == ChangeTitle(old(State()), title)
    {
      values := values.(title := title);
      if editingPost.None? {
        values := values.(slug := GenerateSlug(title));
      }
    }

    method OnFieldChange(v: FormValues)
      modifies this
      ensures State() == EditForm(old(State()), v)
    {
      values := v;
    }

    /** `onSubmit`: the request to send; the state changes only once the answer comes. */
    method OnSubmit() returns (r: Option<AdminRequest>)
      ensures r == Submit(State())
      ensures r.Some? && editingPost.Some? ==> r.value.UpdatePost? && r.value.id == editingPost.value.id
      ensures r.Some? && editingPost.None? ==> r.value.CreatePost?
      ensures r.Some? ==> FormValid(values)
    {
      if !isDialogOpen || !FormValid(values) {
        r := None;
      } else if editingPost.Some? {
        r := Some(UpdatePost(editingPost.value.id, ToPatch(values)));
      } else {
        r := Some(CreatePost(ToInsert(values)));
      }
    }

    method OnCreateSuccess()
      modifies this
      ensures State() == AfterCreateSuccess(old(State()))
    {
      isDialogOpen := false;
    }

    method OnUpdateSuccess()
      modifies this
      ensures State() == AfterUpdateSuccess(old(State()))
    {
      isDialogOpen := false;
      editingPost := None;
    }
  }
}
