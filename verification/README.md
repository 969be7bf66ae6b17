# Library browser and form validation, modelled in Dafny

This project models the three pieces of a small console web application
that hold logic rather than layout:

- **The library browser** (`src/pages/LibrariesPage.tsx`). The page owns
  two pieces of state: a search term and a current page. Three event
  handlers change them: typing a term, choosing a page, and Clear Search.
  Several views derive from that state:
  - a case-insensitive substring filter over title, description and
    space-joined tags;
  - a six-item page slice;
  - the page count;
  - the pagination control with its page links and ellipses.

  The state is the class `Browser.LibraryBrowser` (fields `term` and
  `page`, one method per handler). The derived views are functions in
  `Query` and `PageWindow`.
- **The login form** (`src/pages/LoginPage.tsx`). A zod schema checks an
  email field and a password of at least six characters. The submit
  handler alerts and navigates to `/dashboard`, and runs only when both
  fields pass (`LoginForm`).
- **The article-creation form** (`src/pages/CreateKnowledgeBasePage.tsx`).
  The schema needs a title of at least 2 characters and content of at
  least 10. The category is any string that is present, and tags are
  optional. The submit handler shows a success toast and navigates to
  `/knowledge-base`. Cancel navigates to `/dashboard` (`ArticleForm`).

`Forms` is a small interpreter for the zod rules both schemas use. A field
is either required (with the message for a missing value) or optional, and
it carries a chain of string checks. A submission returns either the field
errors or the handler's side effects, as values. `Text` holds the string
operations the search uses (`toLowerCase`, `includes`, `join`), and
`Sequences` holds JavaScript's `slice` and an "ordered sublist" predicate.

Files: `wrappers.dfy`, `sequences.dfy`, `text.dfy`, `library.dfy`,
`query.dfy`, `page_window.dfy`, `browser.dfy`, `forms.dfy`,
`login_form.dfy`, `article_form.dfy`.

Where the code differs from what a reader might expect, the model follows
the code:

- The page count is `Math.ceil(n / 6)`, so it is 0 when nothing matches.
  It is not clamped to at least 1. The state invariant is therefore
  1 ≤ page ≤ max(1, page count).
- The page window does not put an ellipsis in every gap. With page 1 of 10
  it shows 1, 2, 3, 10 (`PageWindow.NoEllipsisAfterFirstPage`).
- The category's "Please select a category." applies only when the value
  is missing. The empty default `""` passes, so `{title: "A", content:
  "short", category: ""}` fails on title and content only
  (`ArticleForm.ShortArticle`).
- Clear Search empties the term but leaves the page as it was. The page
  stays in range because the full list has at least as many pages as any
  filtered one.

## Model

The forms' starting values are the constants `LoginForm.Defaults` (two
empty strings, src/pages/LoginPage.tsx:69-72) and `ArticleForm.Defaults`
(four empty strings, src/pages/CreateKnowledgeBasePage.tsx:58-63). Rows
that say "definition of" name the functions and predicates the lemmas are
stated about.

| member | source | states |
|---|---|---|
| `Text.Lower` | src/pages/LibrariesPage.tsx:103-105 | lower-casing keeps the length and maps every character on its own |
| `Text.Contains` | src/pages/LibrariesPage.tsx:103-105 | definition of `includes`: `sub` is a prefix of `s` or of some suffix of `s` |
| `Text.Join` | src/pages/LibrariesPage.tsx:105 | definition of `join(' ')`: the parts with the separator between consecutive ones, "" for none |
| `Text.ContainsIffOccurs` | src/pages/LibrariesPage.tsx:103-105 | the `includes` scan finds a substring exactly when it occurs at some index |
| `Text.JoinContainsPart` | src/pages/LibrariesPage.tsx:105 | every tag occurs in the space-joined tag string |
| `Query.TitleOrTagHitMatches` | src/pages/LibrariesPage.tsx:102-106 | a term found case-insensitively in the title or in any single tag makes the item match |
| `Query.Matches` | src/pages/LibrariesPage.tsx:102-106 | definition of the filter callback: the lower-cased term occurs in the lower-cased title, description, or space-joined tags when tags are present |
| `Query.Keep` | src/pages/LibrariesPage.tsx:102-106 | the filter keeps only items of the collection that match, and never more items than it had |
| `Query.KeepIsOrderedSublist` | src/pages/LibrariesPage.tsx:102-106 | the kept items are an order-preserving sublist of the collection |
| `Query.KeepCounts` | src/pages/LibrariesPage.tsx:102-106 | every matching item is kept as often as it occurs, and no other item is kept |
| `Query.Filter` | src/pages/LibrariesPage.tsx:100-107 | the filtered list, with or without the empty-term shortcut, is the ordered sublist of exactly the matching items, with their multiplicities |
| `Query.KeepEmptyTerm` | src/pages/LibrariesPage.tsx:101-106 | filtering by the empty term keeps the whole collection, so the shortcut changes nothing |
| `Query.FilterIgnoresCase` | src/pages/LibrariesPage.tsx:103-105 | two terms that lower-case alike select the same items |
| `Query.FilterLowerCasedTerm` | src/pages/LibrariesPage.tsx:103-105 | searching for the lower-cased term gives the same items as the term |
| `Query.FilterIdempotent` | src/pages/LibrariesPage.tsx:100-107 | filtering the filtered list again by the same term changes nothing |
| `Query.PageCount` | src/pages/LibrariesPage.tsx:114 | the page count is the ceiling of n / 6: enough pages for n items, no spare page, and 0 exactly when n is 0 |
| `Query.PageCountMonotone` | src/pages/LibrariesPage.tsx:114 | more items never need fewer pages |
| `Sequences.Slice` | src/pages/LibrariesPage.tsx:111 | definition of `slice`: negative bounds count from the end and bounds are clipped; for bounds from 0 up it is the run from start to end clipped to the length |
| `Query.PageItems` | src/pages/LibrariesPage.tsx:109-112 | a page never holds more than six items, for any page number |
| `Query.PageItemsRun` | src/pages/LibrariesPage.tsx:109-112 | from page 1 up, the page is the contiguous run of the filtered list from index (page - 1) * 6, clipped to the list, and empty exactly when that index is past the end |
| `Query.PageOfIndex` | src/pages/LibrariesPage.tsx:109-114 | item k of the filtered list appears on page k / 6 + 1, at position k % 6, and that page is within the page count |
| `Query.PageNonEmptyIff` | src/pages/LibrariesPage.tsx:109-114 | a page from 1 up shows items exactly when it is at most the page count |
| `Query.ClearedTermHasAtLeastAsManyPages` | src/pages/LibrariesPage.tsx:161 | the unfiltered list has at least as many pages as any filtered one |
| `Query.SampleItemsPages` | src/pages/LibrariesPage.tsx:79-114 | the eight sample items fill two pages: six on page 1, two on page 2, none on page 3 |
| `PageWindow.ShowPage` | src/pages/LibrariesPage.tsx:204-205 | definition of `showPage` |
| `PageWindow.EllipsisBefore` | src/pages/LibrariesPage.tsx:206 | definition of `showEllipsisBefore` |
| `PageWindow.EllipsisAfter` | src/pages/LibrariesPage.tsx:207 | definition of `showEllipsisAfter` |
| `PageWindow.MarkerFor` | src/pages/LibrariesPage.tsx:209-229 | definition of what one page renders: the before-ellipsis first, then the link, then the after-ellipsis, else nothing |
| `PageWindow.Window` | src/pages/LibrariesPage.tsx:201-230 | definition of the map over pages 1..totalPages, as `WindowUpTo(total)` |
| `PageWindow.WindowUpTo` | src/pages/LibrariesPage.tsx:201-230 | markers come in strictly ascending page order, at most one per page, and a marker is present exactly when the per-page rules yield it |
| `PageWindow.Pagination` | src/pages/LibrariesPage.tsx:189-237 | the control is rendered only with more than one page; Previous is disabled exactly on page 1 and Next exactly on the last page |
| `PageWindow.AnchorsAreLinks` | src/pages/LibrariesPage.tsx:204-225 | page 1, the last page, the current page and its neighbours are always links and never ellipses, and only the current page's link is active |
| `PageWindow.EllipsisPlacement` | src/pages/LibrariesPage.tsx:204-228 | an ellipsis stands at current - 2 exactly when current > 3, at current + 2 exactly when 1 < current < total - 2, and nowhere else |
| `PageWindow.NoAdjacentEllipses` | src/pages/LibrariesPage.tsx:204-229 | no two ellipses are next to each other |
| `PageWindow.NoEllipsisAfterFirstPage` | src/pages/LibrariesPage.tsx:212-228 | page 1 of 10 shows 1, 2, 3, 10 with no ellipsis in the gap |
| `PageWindow.EllipsisOnLastPage` | src/pages/LibrariesPage.tsx:204-228 | page 10 of 10 shows 1, an ellipsis in place of page 8, then 9 and 10 |
| `Browser.LibraryBrowser.constructor` | src/pages/LibrariesPage.tsx:93-94 | the page starts with the empty term on page 1, in a valid state |
| `Browser.LibraryBrowser.Valid` | src/pages/LibrariesPage.tsx:94 | definition of the state invariant: 1 ≤ page ≤ max(1, page count) |
| `Browser.LibraryBrowser.Filtered` | src/pages/LibrariesPage.tsx:100-107 | definition of `filteredItems` for the current term |
| `Browser.LibraryBrowser.TotalPages` | src/pages/LibrariesPage.tsx:114 | definition of `totalPages` for the current term |
| `Browser.LibraryBrowser.Visible` | src/pages/LibrariesPage.tsx:109-112 | at most six items are shown, each from the collection and matching the term; in a valid state the page is empty only when nothing matches |
| `Browser.LibraryBrowser.Controls` | src/pages/LibrariesPage.tsx:189-237 | the control is shown exactly when there is more than one page, and then it links to page 1, the last page and the active current page |
| `Browser.LibraryBrowser.SearchChanged` | src/pages/LibrariesPage.tsx:116-119 | a new term is taken as is and the page returns to 1 |
| `Browser.LibraryBrowser.ChangePage` | src/pages/LibrariesPage.tsx:121-125 | the page becomes n exactly when 1 ≤ n ≤ the page count, otherwise it is unchanged; the term is untouched; the invariant is kept |
| `Browser.LibraryBrowser.Previous` | src/pages/LibrariesPage.tsx:194-199 | Previous goes back one page, and is a no-op on page 1 |
| `Browser.LibraryBrowser.Next` | src/pages/LibrariesPage.tsx:232-237 | Next goes forward one page, and is a no-op on the last page |
| `Browser.LibraryBrowser.ClearSearch` | src/pages/LibrariesPage.tsx:161 | the term becomes empty, the page is unchanged, the page count does not drop, and the invariant is kept |
| `Forms.FirstFailure` | src/pages/LoginPage.tsx:52-59 | a field's check chain reports nothing exactly when every check passes, and otherwise the message of the first failing check |
| `Forms.FieldError` | src/pages/CreateKnowledgeBasePage.tsx:44-47 | a missing value fails exactly when the field is not optional; a present value fails exactly when some check fails |
| `LoginForm.RuleOf` | src/pages/LoginPage.tsx:52-59 | definition of `loginFormSchema`: email required with the format check, password required with minimum length 6, each with its message |
| `LoginForm.Validate` | src/pages/LoginPage.tsx:52-59 | the errors are exactly the failing fields: the email fails only on the format test, the password only when shorter than 6 whatever its content, each with its own message |
| `LoginForm.Submit` | src/pages/LoginPage.tsx:75-82 | the handler runs exactly when no field fails, and then alerts with the email and navigates to /dashboard; otherwise the errors are reported |
| `LoginForm.DefaultsRejected` | src/pages/LoginPage.tsx:67-73 | the untouched form always fails the password check and is not submitted |
| `LoginForm.BadEmailShortPassword` | src/pages/LoginPage.tsx:52-59 | a malformed email with a five-character password fails on both fields |
| `LoginForm.GoodCredentials` | src/pages/LoginPage.tsx:75-82 | a well-formed email with a six-character password produces one alert and one navigation to /dashboard |
| `ArticleForm.RuleOf` | src/pages/CreateKnowledgeBasePage.tsx:37-48 | definition of `formSchema`: title min 2, content min 10, category required with "Please select a category." and no check, tags optional |
| `ArticleForm.Validate` | src/pages/CreateKnowledgeBasePage.tsx:37-48 | the errors are exactly the failing fields: title shorter than 2, content shorter than 10, a missing category; tags never fail; each with its message |
| `ArticleForm.Submit` | src/pages/CreateKnowledgeBasePage.tsx:66-75 | the handler runs exactly when no field fails, and then shows the success toast with the title and navigates to /knowledge-base |
| `ArticleForm.Cancel` | src/pages/CreateKnowledgeBasePage.tsx:77-80 | Cancel navigates to /dashboard whatever the field values |
| `ArticleForm.DefaultsRejectedOnTitleAndContent` | src/pages/CreateKnowledgeBasePage.tsx:56-64 | the untouched form fails on title and content only; the empty default category passes |
| `ArticleForm.ShortArticle` | src/pages/CreateKnowledgeBasePage.tsx:37-48 | a one-letter title, short content and an empty category fail on title and content only |
| `ArticleForm.CompleteArticle` | src/pages/CreateKnowledgeBasePage.tsx:66-75 | a complete article is accepted, with the toast "Title: My Article" and navigation to /knowledge-base |

## Left out

- Text.Lower: maps only the ASCII letters A-Z. JavaScript's `toLowerCase` is Unicode-aware, and Unicode case mapping is not modelled.
- LoginForm.Validate: lengths count Dafny characters, not UTF-16 code units as JavaScript's `length` does.
- ArticleForm.Validate: lengths count Dafny characters, not UTF-16 code units.
- The email format test belongs to zod and its source is not part of this model. It is a parameter, `isEmail`, of the login validator.
- zod's own message for a missing required string is taken to be "Required".
- Validation reports only the first failing check of each field, as the form shows it. Every field here has at most one check, so nothing is lost.
- react-hook-form is not part of this model. That covers `handleSubmit`, the `isSubmitting` flag and the disabled Save button, guarding against a second submit, and re-validation on each keystroke. The model states only that a handler runs exactly when validation passes.
- `navigate`, `alert` and `toast` are returned as effect values, not performed. `console.log` calls are left out, and so are the view and edit handlers of the library page, which only log.
- `useMemo` caching is left out. The filter and the slice are pure, so caching does not change what is shown.
- The sample items omit their image addresses. Only the search uses the item fields, and it never reads the images.
- JSX, styling, icons, and the header, sidebar and footer placeholders are left out.
- The table of contents and article display (`src/pages/KnowledgeBasePage.tsx`, `src/components/KnowledgeBaseArticleDisplay.tsx`) are left out: static data and markup passed through unchanged.
- The item card (`src/components/LibraryItemPreview.tsx`) and the dashboard (`src/pages/DashboardPage.tsx`) are presentational and left out.
- The routing table (`src/App.tsx`) is left out: its matching rules belong to react-router, which is not part of this model.
