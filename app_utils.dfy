/**
 * The query-formatting and result-policy helpers of the reviews API
 * (utils/app.utils.js): the listing and total-count statements for
 * `GET /api/reviews`, the variable-shape INSERT for `POST /api/reviews`,
 * and the shared "zero rows means not found" rule.
 */
module AppUtils {
  import opened Wrappers
  import opened Text
  import opened ReviewsSql

  /* ---------------- listing options ---------------- */

  /** The query parameters of a review listing; `None` is an absent parameter. */
  datatype ReviewsOptions = ReviewsOptions(
    category: Option<string>,
    sortBy: Option<string>,
    order: Option<string>,
    limit: Option<int>,
    p: Option<int>)

  /** The listing statement, its bound values, and the total-count statement. */
  datatype ReviewsQuery = ReviewsQuery(
    queryString: string,
    queryVals: seq<Param>,
    totalCountStr: string)

  const DefaultSortBy: string := "created_at"
  const DefaultOrder: string := "desc"
  const DefaultLimit: int := 10
  const DefaultPage: int := 1

  /** Sort columns a caller may name (compared in lower case). */
  const AllowedSortBy: seq<string> :=
    ["title", "designer", "owner", "review_img_url", "category", "comment_count", "votes"]

  /** Sort directions a caller may name (compared in lower case). */
  const AllowedOrder: seq<string> := ["asc", "desc"]

  function SortByOf(o: ReviewsOptions): string { o.sortBy.GetOr(DefaultSortBy) }
  function OrderOf(o: ReviewsOptions): string { o.order.GetOr(DefaultOrder) }
  function LimitOf(o: ReviewsOptions): int { o.limit.GetOr(DefaultLimit) }
  function PageOf(o: ReviewsOptions): int { o.p.GetOr(DefaultPage) }

  /** Rows skipped before page `p` (1-based) of `limit` rows each. */
  function Offset(limit: int, p: int): int { (p - 1) * limit }

  const Qualifier: string := "reviews."

  predicate IsQualified(column: string) {
    |Qualifier| <= |column| && column[..|Qualifier|] == Qualifier
  }

  /** The column name with the `reviews.` table qualifier removed. */
  function Unqualified(column: string): string {
    if IsQualified(column) then column[|Qualifier|..] else column
  }

  /**
   * The column text of the ORDER BY clause. The caller's `sortBy` is used,
   * as typed, only when its lower-case form is allow-listed; otherwise the
   * listing is ordered on the creation time. Only the exact text
   * `comment_count` (the derived alias) goes unqualified.
   */
  function OrderColumn(sortBy: string): (column: string)
    ensures Unqualified(column) == if ToLower(sortBy) in AllowedSortBy then sortBy else DefaultSortBy
    ensures IsQualified(column) <==> sortBy != "comment_count"
  {
    assert ToLower("comment_count") == "comment_count";
    assert "comment_count"[..|Qualifier|] != Qualifier by {
      assert "comment_count"[0] != Qualifier[0];
    }
    if ToLower(sortBy) in AllowedSortBy then
      if sortBy == "comment_count" then sortBy
      else Qualifier + sortBy
    else
      Qualifier + DefaultSortBy
  }

  /**
   * The direction text of the ORDER BY clause: the caller's `order`, as
   * typed, exactly when its lower-case form is `asc` or `desc`; otherwise
   * `desc`.
   */
  function Direction(order: string): (direction: string)
    ensures direction == order <==> ToLower(order) in AllowedOrder
    ensures ToLower(order) !in AllowedOrder ==> direction == DefaultOrder
    ensures ToLower(direction) in AllowedOrder
  {
    assert ToLower(DefaultOrder) == DefaultOrder;
    if ToLower(order) in AllowedOrder then order else DefaultOrder
  }

  /** A statement as a clause list together with the values its slots take. */
  datatype Plan = Plan(clauses: seq<Clause<nat>>, params: seq<Param>)

  /**
   * The listing statement built clause by clause: the optional category
   * filter takes the next free slot, then LIMIT and OFFSET take the two
   * after it, each slot numbered by the values bound before it.
   */
  function ListingPlan(o: ReviewsOptions): Plan {
    var limit := LimitOf(o);
    Plan(
      ListingClauses(CategoryFilter(o.category), OrderBy(OrderColumn(SortByOf(o)), Direction(OrderOf(o)))),
      CategoryParams(o.category) + [Number(limit)] + [Number(Offset(limit, PageOf(o)))])
  }

  /**
   * The listing clauses around a filter and an ORDER BY clause; LIMIT and
   * OFFSET take the two slots after the filter's.
   */
  function ListingClauses(filter: seq<Clause<nat>>, orderBy: Clause<nat>): seq<Clause<nat>> {
    var n := |filter|;
    [SelectReviews] + filter + [GroupByReview] + [orderBy] + [LimitOffset(n + 1, n + 2)] + [End]
  }

  /** The category filter clause, taking the first slot, if a category is given. */
  function CategoryFilter(category: Option<string>): seq<Clause<nat>> {
    if category.Some? then [WhereCategory(1)] else []
  }

  function CategoryParams(category: Option<string>): seq<Param> {
    if category.Some? then [Text(category.value)] else []
  }

  /** The total-count statement: the category filter and nothing else. */
  function CountPlan(category: Option<string>): seq<Clause<nat>> {
    if category.Some? then [SelectCount] + CategoryFilter(category) + [End] else [SelectCount]
  }

  /**
   * formatReviewsQuery: builds the listing text by appending clause after
   * clause, handing out placeholders by shifting them off a fixed list, and
   * pushing each bound value as its placeholder is used.
   */
  method FormatReviewsQuery(o: ReviewsOptions) returns (q: ReviewsQuery)
    ensures q.queryString == RenderAll(ListingPlan(o).clauses)
    ensures q.queryVals == ListingPlan(o).params
    ensures q.totalCountStr == RenderAll(CountPlan(o.category))
  {
    var sortBy := SortByOf(o);
    var order := OrderOf(o);
    var limit := LimitOf(o);
    var p := PageOf(o);

    var queryShift := ["$1", "$2", "$3"];
    var pageVal := Offset(limit, p);
    var queryVals: seq<Param> := [];
    var queryString := ReviewsSelect;
    var totalCountStr := CountSelect;

    if o.category.Some? {
      queryVals := queryVals + [Text(o.category.value)];
      queryString := queryString + " WHERE category = " + queryShift[0];
      queryShift := queryShift[1..];
      totalCountStr := totalCountStr + " WHERE category = $1;";
    }
    assert queryVals == CategoryParams(o.category);
    queryString := queryString + " GROUP BY reviews.review_id";
    queryString := AppendOrderBy(queryString, sortBy, order);
    var limitSlot := queryShift[0];
    queryShift := queryShift[1..];
    var offsetSlot := queryShift[0];
    queryShift := queryShift[1..];
    queryString := queryString + " LIMIT " + limitSlot + " OFFSET " + offsetSlot + ";";
    queryVals := queryVals + [Number(limit)];
    queryVals := queryVals + [Number(pageVal)];

    ghost var orderBy := OrderBy(OrderColumn(sortBy), Direction(order));
    if o.category.Some? {
      ListingTextWithCategory(orderBy);
    } else {
      ListingTextWithoutCategory(orderBy);
    }
    CountPlanText(o.category);
    q := ReviewsQuery(queryString, queryVals, totalCountStr);
  }

  /**
   * The ORDER BY step of formatReviewsQuery: appends the sort column and the
   * direction, each gated by its allow-list.
   */
  method AppendOrderBy(queryString: string, sortBy: string, order: string) returns (result: string)
    ensures result == queryString + Render(OrderBy(OrderColumn(sortBy), Direction(order)))
  {
    ListingLiterals();
    result := queryString;
    ghost var column := OrderColumn(sortBy);
    if ToLower(sortBy) in AllowedSortBy {
      if sortBy == "comment_count" {
        result := result + " ORDER BY " + sortBy;
      } else {
        result := result + " ORDER BY reviews." + sortBy;
        ConcatAssoc4(queryString, " ORDER BY ", Qualifier, sortBy);
      }
    } else {
      result := result + " ORDER BY reviews.created_at";
      ConcatAssoc(queryString, " ORDER BY ", Qualifier + DefaultSortBy);
    }
    assert result == queryString + " ORDER BY " + column;

    ghost var beforeDirection := result;
    ghost var direction := Direction(order);
    if ToLower(order) in AllowedOrder {
      result := result + " " + order;
    } else {
      result := result + " desc";
      ConcatAssoc(beforeDirection, " ", DefaultOrder);
    }
    assert result == beforeDirection + " " + direction;
    ConcatAssoc5(queryString, " ORDER BY ", column, " ", direction);
  }

  /** The appended LIMIT/OFFSET text is the LIMIT/OFFSET clause followed by the terminator. */
  lemma LimitOffsetText(s: string, k: nat)
    ensures s + " LIMIT " + Placeholder(k) + " OFFSET " + Placeholder(k + 1) + ";"
         == s + Render(LimitOffset(k, k + 1)) + Render(End)
  {
    ConcatAssoc5(s, " LIMIT ", Placeholder(k), " OFFSET ", Placeholder(k + 1));
  }

  /** The listing text with a category filter, as the method spells it out. */
  lemma ListingTextWithCategory(orderBy: Clause<nat>)
    ensures RenderAll(ListingClauses([WhereCategory(1)], orderBy)) ==
      ReviewsSelect + " WHERE category = " + "$1" + " GROUP BY reviews.review_id"
        + Render(orderBy) + " LIMIT " + "$2" + " OFFSET " + "$3" + ";"
  {
    PlaceholdersOneToThree();
    var head := [SelectReviews] + [WhereCategory(1)];
    RenderAllSingle(SelectReviews);
    RenderAllSnoc([SelectReviews], WhereCategory(1));
    ConcatAssoc(ReviewsSelect, " WHERE category = ", Placeholder(1));
    RenderAllSnoc(head, GroupByReview);
    RenderAllSnoc(head + [GroupByReview], orderBy);
    RenderAllSnoc(head + [GroupByReview] + [orderBy], LimitOffset(2, 3));
    RenderAllSnoc(head + [GroupByReview] + [orderBy] + [LimitOffset(2, 3)], End);
    LimitOffsetText(RenderAll(head + [GroupByReview] + [orderBy]), 2);
  }

  /** The listing text without a filter, as the method spells it out. */
  lemma ListingTextWithoutCategory(orderBy: Clause<nat>)
    ensures RenderAll(ListingClauses([], orderBy)) ==
      ReviewsSelect + " GROUP BY reviews.review_id"
        + Render(orderBy) + " LIMIT " + "$1" + " OFFSET " + "$2" + ";"
  {
    PlaceholdersOneToThree();
    var head: seq<Clause<nat>> := [SelectReviews];
    assert [SelectReviews] + [] == head;
    RenderAllSingle(SelectReviews);
    RenderAllSnoc(head, GroupByReview);
    RenderAllSnoc(head + [GroupByReview], orderBy);
    RenderAllSnoc(head + [GroupByReview] + [orderBy], LimitOffset(1, 2));
    RenderAllSnoc(head + [GroupByReview] + [orderBy] + [LimitOffset(1, 2)], End);
    LimitOffsetText(RenderAll(head + [GroupByReview] + [orderBy]), 1);
  }

  /** The literal fragments the listing text is assembled from. */
  lemma ListingLiterals()
    ensures " ORDER BY reviews." == " ORDER BY " + Qualifier
    ensures " ORDER BY reviews.created_at" == " ORDER BY " + (Qualifier + DefaultSortBy)
    ensures " desc" == " " + DefaultOrder
    ensures Placeholder(1) == "$1" && Placeholder(2) == "$2" && Placeholder(3) == "$3"
  {
    PlaceholdersOneToThree();
  }

  lemma CountPlanText(category: Option<string>)
    ensures RenderAll(CountPlan(category)) ==
      if category.Some? then CountSelect + " WHERE category = $1;" else CountSelect
  {
    PlaceholdersOneToThree();
    RenderAllSingle(SelectCount);
    if category.Some? {
      RenderAllSnoc([SelectCount], WhereCategory(1));
      RenderAllSnoc([SelectCount] + [WhereCategory(1)], End);
      ConcatAssoc(CountSelect, Render(WhereCategory(1)), ";");
      assert Render(WhereCategory(1)) + ";" == " WHERE category = $1;";
    }
  }

  /* ---------------- review creation ---------------- */

  /** The body of `POST /api/reviews`; an absent field is `Undefined`. */
  datatype ReviewPayload = ReviewPayload(
    owner: Param,
    title: Param,
    reviewBody: Param,
    designer: Param,
    category: Param,
    reviewImgUrl: Param)

  datatype InsertQuery = InsertQuery(queryString: string, valsArr: seq<Param>)

  /** The columns of a new review, in the order their values are bound. */
  const ReviewColumns: seq<string> :=
    ["owner", "title", "review_body", "designer", "category", "review_img_url"]

  /** The payload field that fills `column`. */
  function FieldOf(r: ReviewPayload, column: string): Param {
    match column
    case "owner" => r.owner
    case "title" => r.title
    case "review_body" => r.reviewBody
    case "designer" => r.designer
    case "category" => r.category
    case "review_img_url" => r.reviewImgUrl
    case _ => Undefined
  }

  /**
   * formatAddReviewQuery: without an image URL the INSERT names five columns
   * (leaving the image to the store's default), indented by six blanks and
   * terminated, and binds the first five values; with one it names all six,
   * indented by four blanks, and binds all six. The k-th placeholder always
   * receives the field of the k-th named column.
   */
  function FormatAddReviewQuery(r: ReviewPayload): (q: InsertQuery)
    ensures |q.valsArr| == (if r.reviewImgUrl.Undefined? then 5 else 6)
    ensures forall i :: 0 <= i < |q.valsArr| ==> q.valsArr[i] == FieldOf(r, ReviewColumns[i])
    ensures q.queryString == InsertReview(ReviewColumns[..|q.valsArr|],
      if r.reviewImgUrl.Undefined? then "      " else "    ",
      if r.reviewImgUrl.Undefined? then ";" else "")
  {
    var valsArr := [r.owner, r.title, r.reviewBody, r.designer, r.category, r.reviewImgUrl];
    ColumnFields(r);
    if r.reviewImgUrl.Undefined? then
      InsertQuery(InsertReview(ReviewColumns[..5], "      ", ";"), valsArr[0..|valsArr| - 1])
    else
      assert ReviewColumns[..|valsArr|] == ReviewColumns;
      InsertQuery(InsertReview(ReviewColumns, "    ", ""), valsArr)
  }

  /** Each review column is filled from its own payload field. */
  lemma ColumnFields(r: ReviewPayload)
    ensures forall i :: 0 <= i < |ReviewColumns| ==>
      FieldOf(r, ReviewColumns[i]) == [r.owner, r.title, r.reviewBody, r.designer, r.category, r.reviewImgUrl][i]
  {
    assert FieldOf(r, ReviewColumns[0]) == r.owner;
    assert FieldOf(r, ReviewColumns[1]) == r.title;
    assert FieldOf(r, ReviewColumns[2]) == r.reviewBody;
    assert FieldOf(r, ReviewColumns[3]) == r.designer;
    assert FieldOf(r, ReviewColumns[4]) == r.category;
    assert FieldOf(r, ReviewColumns[5]) == r.reviewImgUrl;
  }

  /* ---------------- result policy ---------------- */

  /** The rejection a lookup fails with. */
  datatype Rejection = Rejection(status: int, message: string)

  datatype Result<T> = Ok(value: T) | Err(rejection: Rejection)

  const DefaultNotFoundStatus: int := 404

  /**
   * rowCountCheck: a lookup that found no rows is rejected with the given
   * message and status (404 when none is given); otherwise the value passes
   * through unchanged.
   */
  function RowCountCheck<T>(count: nat, returnVal: T, message: string, status: Option<int>): (r: Result<T>)
    ensures r.Err? <==> count == 0
    ensures r.Ok? ==> r.value == returnVal
    ensures r.Err? ==> r.rejection.message == message
    ensures r.Err? && status.Some? ==> r.rejection.status == status.value
    ensures r.Err? && status.None? ==> r.rejection.status == DefaultNotFoundStatus
  {
    if count == 0 then Err(Rejection(status.GetOr(DefaultNotFoundStatus), message)) else Ok(returnVal)
  }
}
