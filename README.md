# NC-Games query helpers in Dafny

This project models the query-formatting helpers of the NC-Games reviews API
(`utils/app.utils.js`) and proves what they promise:

- **`formatReviewsQuery`** turns the query parameters of `GET /api/reviews`
  into three things: a parameterised listing statement, the values bound to
  its placeholders, and a total-count statement. The model is the method
  `AppUtils.FormatReviewsQuery`. It keeps the source's local state:
  - the text is grown by appending;
  - values are pushed onto `queryVals`;
  - placeholders are shifted off the fixed list `["$1", "$2", "$3"]`.

  The ORDER BY step (source lines 36-50) is the helper method
  `AppUtils.AppendOrderBy`.
- **`formatAddReviewQuery`** chooses between a five-column and a six-column
  INSERT, depending on whether the payload has an image URL
  (`AppUtils.FormatAddReviewQuery`).
- **`rowCountCheck`** is the "no rows means not found" rule
  (`AppUtils.RowCountCheck`).

The method is proved against a reference definition of the statement (module
`ReviewsSql`):
- A statement is a list of clauses (`Clause<nat>`). Each placeholder is a
  numbered slot, and `Render`/`RenderAll` produce the text.
- `Bind` models what the store does with a statement and its value list. It
  refuses a value list whose length is not the highest placeholder number.
  It also refuses a statement that skips a placeholder number, since values
  are sent without types and an unused number has none. Otherwise it replaces
  each `$k` by the k-th value (`Substitute`), and fails when a slot names no
  value.
- `AppUtils.ListingPlan` and `AppUtils.CountPlan` give the clauses and values
  the source builds for a set of options.

`FormatReviewsQuery` is proved to return:
- exactly the rendering of `ListingPlan`;
- its value list;
- the rendering of `CountPlan`.

The lemmas in `ReviewsQueryProperties` state the properties on those plans.

Choices made in the model:
- Query parameters are `Option` values. `None` stands for an absent
  (`undefined`) parameter, which is when the source's defaults apply.
- `limit` and `p` are integers.
- `toLowerCase` is ASCII lower-casing (`Text.ToLower`).
- The INSERT text is built from the column list by `ReviewsSql.InsertReview`.
  For both branches this gives the statement the source writes out: its
  blank-line start, its indentation (six or four blanks), its column list,
  one placeholder per column and `RETURNING review_id`, with a `;` only in
  the five-column form.

Behaviour the source has that looks unintended is modelled as written and
stated as lemmas:
- `created_at`, the default sort column, is not on the allow-list. Asking
  for it explicitly reaches the same clause through the fallback.
- `COMMENT_COUNT` passes the case-insensitive gate but not the exact test
  for the alias, so it is ordered on `reviews.COMMENT_COUNT`.
- Accepted values are interpolated as typed, not lower-cased.

## Model

| member | source | states |
|---|---|---|
| AppUtils.OrderColumn | utils/app.utils.js:36-44 | ORDER BY column: the caller's text when its lower-case form is on the allow-list of lines 8-16, else `created_at`. Qualified with `reviews.` iff the text is not exactly `comment_count` |
| AppUtils.Direction | utils/app.utils.js:46-50 | the direction is the caller's text iff its lower-case form is `asc`/`desc`, else `desc`. Always an allowed direction |
| AppUtils.FormatReviewsQuery | utils/app.utils.js:1-57 | the listing text, bound values and count text are exactly the rendering, values and count rendering of the reference plans for the options |
| AppUtils.AppendOrderBy | utils/app.utils.js:36-50 | appends exactly the ORDER BY clause made of the gated column and the gated direction |
| AppUtils.LimitOffsetText | utils/app.utils.js:52 | the LIMIT/OFFSET line is the LIMIT/OFFSET clause with consecutive slots, followed by the terminator |
| AppUtils.ListingTextWithCategory | utils/app.utils.js:21-34 | with a category the listing text is SELECT, `WHERE category = $1`, GROUP BY, ORDER BY, `LIMIT $2 OFFSET $3;` |
| AppUtils.ListingTextWithoutCategory | utils/app.utils.js:21-34 | without a category the listing text is SELECT, GROUP BY, ORDER BY, `LIMIT $1 OFFSET $2;` |
| AppUtils.CountPlanText | utils/app.utils.js:25-31 | the count text is the bare count, plus ` WHERE category = $1;` exactly when a category is given |
| AppUtils.FormatAddReviewQuery | utils/app.utils.js:59-90 | 5 values without an image URL, 6 with one. The k-th value is the field of the k-th named column. The text names exactly as many columns as there are values |
| AppUtils.ColumnFields | utils/app.utils.js:67-74 | each insert column is filled from its own payload field, in column order |
| AppUtils.RowCountCheck | utils/app.utils.js:92-98 | rejects iff the count is 0, with the given message and the given status (404 by default). Otherwise returns the value unchanged |
| ReviewsQueryProperties.SortColumnGate | utils/app.utils.js:36-44 | accepted text becomes the column as typed, bare for `comment_count` and prefixed `reviews.` otherwise. Rejected text becomes `reviews.created_at` |
| ReviewsQueryProperties.OrderByIsIdentifierText | utils/app.utils.js:36-50 | for every input, the ORDER BY column holds only letters, `_` and `.`, and the direction only letters |
| ReviewsQueryProperties.RejectedSortByIsInvisible | utils/app.utils.js:36-44 | any two rejected sort texts give the same listing plan, and the same plan as the default |
| ReviewsQueryProperties.RejectedOrderIsInvisible | utils/app.utils.js:46-50 | any two rejected directions give the same listing plan, and the same plan as no direction |
| ReviewsQueryProperties.CreatedAtIsNotAllowListed | utils/app.utils.js:3-16 | the default column is not on the allow-list, yet it yields `reviews.created_at` through the fallback |
| ReviewsQueryProperties.DefaultOrdering | utils/app.utils.js:3-4 | with neither sort_by nor order, the listing orders on `reviews.created_at` `desc` |
| ReviewsQueryProperties.UpperCaseAliasIsQualified | utils/app.utils.js:36-40 | `COMMENT_COUNT` passes the gate but is ordered on `reviews.COMMENT_COUNT` |
| ReviewsQueryProperties.DirectionIsInterpolatedAsTyped | utils/app.utils.js:46-47 | `ASC` is appended as typed |
| ReviewsQueryProperties.ListingParams | utils/app.utils.js:19-20 | the values are [category, limit, (p-1)*limit] with a category and [limit, (p-1)*limit] without |
| ReviewsQueryProperties.DefaultPaging | utils/app.utils.js:5-6 | the default limit and page bind 10 and 0 |
| ReviewsQueryProperties.ListingSlotsAligned | utils/app.utils.js:18-20 | the k-th placeholder of the listing is `$k`. There are as many placeholders as values |
| ReviewsQueryProperties.ListingClausesSlots | utils/app.utils.js:52 | the slots of the listing clauses are the filter's slots, then the two after them |
| ReviewsQueryProperties.ListingBinds | utils/app.utils.js:28-32 | the store accepts the listing with its own values. The WHERE clause compares with the category value, and LIMIT/OFFSET get limit and (p-1)*limit |
| ReviewsQueryProperties.ListingSubstitutes | utils/app.utils.js:28-32 | substituting the listing's values puts the category in the WHERE clause, and limit and (p-1)*limit in LIMIT/OFFSET |
| ReviewsQueryProperties.SubstituteListingClauses | utils/app.utils.js:52-54 | substitution into the listing clauses gives LIMIT and OFFSET the two values after the filter's |
| ReviewsQueryProperties.ListingTextIgnoresCategoryValue | utils/app.utils.js:28-30 | the listing text is the same for every category value; the category reaches the store only as a bound value |
| ReviewsQueryProperties.ListingClauseOrder | utils/app.utils.js:21-52 | the clause kinds are exactly SELECT, WHERE, GROUP BY, ORDER BY, LIMIT/OFFSET, terminator in that order, with the WHERE clause present iff a category is given |
| ReviewsQueryProperties.ListingClausesInOrder | utils/app.utils.js:28-34 | for both shapes of the filter, the clause kinds are exactly those of the filter between SELECT and GROUP BY, ORDER BY, LIMIT/OFFSET, terminator |
| ReviewsQueryProperties.CountPlanScope | utils/app.utils.js:25-31 | the count statement has a category filter iff a category is given. Its only slot is `$1`. It has no GROUP BY, ORDER BY or LIMIT/OFFSET |
| ReviewsQueryProperties.CountBindsCategory | utils/app.utils.js:25-31 | sent with the category as its only value (no value without one), the store accepts the count statement, which then compares with the category |
| ReviewsQueryProperties.CountRefusesListingValues | utils/app.utils.js:25-31 | the store refuses the count statement sent with the listing's value list, which is always longer than its placeholders |
| ReviewsSql.BindDefinedIff | utils/app.utils.js:18 | the model of the store that the placeholders of line 18 rely on: it accepts a statement and values iff there are as many values as the highest placeholder number, no number below it is skipped, and every placeholder names a value |
| ReviewsSql.SkippedSlotIsRefused | utils/app.utils.js:18 | in that model of the store, a statement using `$1` and `$3` but not `$2` is refused even with three values |
| ReviewsQueryProperties.InsertShape | utils/app.utils.js:75-89 | the image column is named iff the payload has an image URL. The first five values are the five other fields, in order |
| ReviewsQueryProperties.RowCountCheckUniform | utils/app.utils.js:92-98 | whether the check rejects, and with what, does not depend on the guarded value |

## Left out

- JavaScript coercion of `limit` and `p`: query parameters arrive as strings (controllers/app.controllers.js:31-32). A given `limit` is pushed unchanged as a bound value at line 53, so the real value list holds the text `"5"` where the model holds `Number(5)`. `p` only enters the product `(p - 1) * limit` at line 19, where `*` coerces both to numbers. Neither is interpolated into the statement text. The model holds both as integers, so non-numeric values and `NaN` offsets are not covered.
- Non-string `sort_by`/`order`, where `toLowerCase` would throw, and `null` parameters, which do not take the defaults. Parameters are modelled as absent or as strings.
- Text.ToLower: lower-cases ASCII letters only. This does not change which texts pass the allow-lists. The only non-ASCII character whose lower-case form is a single ASCII letter is KELVIN SIGN, which becomes `k`, and no allow-listed word contains `k`.
- ReviewPayload: JSON `null`, booleans, arrays and objects are not represented. A field is text, a number or `Undefined`; in the source `review_img_url: null` is not `undefined` and takes the six-column branch, as any non-`Undefined` value does in the model.
- RowCountCheck: returns a `Result` rather than a rejected `Promise` or a plain value, so asynchronous behaviour is not modelled.
- Executing the statements: `Bind` models only the substitution of bound values into placeholders, not the SQL semantics of the store.
- The database models, controllers, routers, error handlers and authentication helper. These are calls into the database, Express wiring or a JWT library, and are not part of this model.
