/** The form that creates a knowledge-base article: title, content, category
    and optional tags. A valid submission shows a success toast and moves to
    the knowledge base; Cancel goes back to the dashboard. */
module ArticleForm {
  import opened Wrappers
  import opened Forms

  datatype Field = Title | Content | Category | Tags

  /** The form's values; `None` stands for a value that is not there at all. */
  datatype Values = Values(title: Option<string>, content: Option<string>, category: Option<string>, tags: Option<string>)

  const TitleMessage := "Title must be at least 2 characters."
  const ContentMessage := "Content must be at least 10 characters."
  const CategoryMessage := "Please select a category."
  const MinTitleLength: nat := 2
  const MinContentLength: nat := 10
  const KnowledgeBasePath := "/knowledge-base"
  const DashboardPath := "/dashboard"
  const CreatedMessage := "Knowledge base article created successfully!"

  /** The schema, field by field: the category is any string, tags may be
      missing. */
  function RuleOf(f: Field): Rule
  {
    match f
    case Title => Rule(Required(DefaultRequiredMessage), [MinLength(MinTitleLength, TitleMessage)])
    case Content => Rule(Required(DefaultRequiredMessage), [MinLength(MinContentLength, ContentMessage)])
    case Category => Rule(Required(CategoryMessage), [])
    case Tags => Rule(Optional, [])
  }

  function ValueOf(v: Values, f: Field): Option<string>
  {
    match f
    case Title => v.title
    case Content => v.content
    case Category => v.category
    case Tags => v.tags
  }

  /** The schema has no email check, so the format test is never consulted. */
  function NoEmailField(s: string): bool { true }

  /** The values the form starts with. */
  const Defaults := Values(Some(""), Some(""), Some(""), Some(""))

  /** The errors shown for `v`: exactly the failing fields. The title and the
      content fail on their minimum length, the category only when it is
      missing, and the tags never. */
  function Validate(v: Values): (errors: map<Field, string>)
    ensures Title in errors <==> v.title.None? || |v.title.value| < MinTitleLength
    ensures Content in errors <==> v.content.None? || |v.content.value| < MinContentLength
    ensures Category in errors <==> v.category.None?
    ensures Tags !in errors
    ensures Title in errors ==> errors[Title] == if v.title.None? then DefaultRequiredMessage else TitleMessage
    ensures Content in errors ==> errors[Content] == if v.content.None? then DefaultRequiredMessage else ContentMessage
    ensures Category in errors ==> errors[Category] == CategoryMessage
  {
    map f | f in {Title, Content, Category, Tags} && FieldError(RuleOf(f), ValueOf(v, f), NoEmailField).Some?
          :: FieldError(RuleOf(f), ValueOf(v, f), NoEmailField).value
  }

  /** `onSubmit` behind `handleSubmit`: it runs only when no field fails, and
      then shows the success toast with the title and navigates to the
      knowledge base. */
  function Submit(v: Values): (r: Outcome<Field>)
    ensures r.Rejected? <==> Validate(v) != map[]
    ensures r.Rejected? ==> r.errors == Validate(v)
    ensures r.Submitted? ==> v.title.Some? && |v.title.value| >= MinTitleLength
                             && v.content.Some? && |v.content.value| >= MinContentLength
                             && v.category.Some?
    ensures r.Submitted? ==> r.effects == [SuccessToast(CreatedMessage, "Title: " + v.title.value), Navigate(KnowledgeBasePath)]
  {
    var errors := Validate(v);
    if errors != map[] then Rejected(errors)
    else
      assert Title !in errors && Content !in errors && Category !in errors;
      Submitted([SuccessToast(CreatedMessage, "Title: " + v.title.value), Navigate(KnowledgeBasePath)])
  }

  /** `handleCancel`: back to the dashboard, whatever was typed. */
  function Cancel(v: Values): (e: Effect)
    ensures e == Navigate(DashboardPath)
  {
    Navigate(DashboardPath)
  }

  /** The untouched form fails on the title and the content only; the empty
      default category passes. */
  lemma DefaultsRejectedOnTitleAndContent()
    ensures Validate(Defaults) == map[Title := TitleMessage, Content := ContentMessage]
    ensures Submit(Defaults).Rejected?
  {
  }

  /** A one-letter title, short content and an empty category fail on the
      title and the content; the category passes. */
  lemma ShortArticle()
    ensures Validate(Values(Some("A"), Some("short"), Some(""), None))
            == map[Title := TitleMessage, Content := ContentMessage]
  {
  }

  /** A complete article is accepted and leads to the knowledge base. */
  lemma CompleteArticle()
    ensures Submit(Values(Some("My Article"), Some("This is sufficiently long content."), Some("general"), None))
            == Submitted([SuccessToast(CreatedMessage, "Title: My Article"), Navigate(KnowledgeBasePath)])
  {
    var errors := Validate(Values(Some("My Article"), Some("This is sufficiently long content."), Some("general"), None));
    assert errors.Keys == {};
    assert errors == map[];
    assert "Title: " + "My Article" == "Title: My Article";
  }
}
