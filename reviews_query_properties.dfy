/**
 * What the review listing, count and insert statements promise, stated on
 * the reference definitions that FormatReviewsQuery and FormatAddReviewQuery
 * are proved against: the allow-list gates on the ORDER BY clause, the
 * alignment of placeholders with bound values, clause order, the scope of
 * the total-count statement and the two shapes of the INSERT.
 */
module ReviewsQueryProperties {
  import opened Wrappers
  import opened Text
  import opened ReviewsSql
  import opened AppUtils

  /* ---------------- the ORDER BY gates ---------------- */

  /** Characters an ORDER BY column may consist of: word characters and the qualifier dot. */
  predicate IsColumnText(s: string) {
    forall i :: 0 <= i < |s| ==> IsWordChar(s[i]) || s[i] == '.'
  }

  lemma AllowedWordsAreWords()
    ensures forall w :: w in AllowedSortBy ==> IsWord(w)
    ensures forall w :: w in AllowedOrder ==> IsWord(w)
  {
  }

  /**
   * The sort column is the caller's text, as typed, only when its lower-case
   * form is allow-listed, prefixed by `reviews.` unless it is the exact alias
   * `comment_count`; any other text orders on `reviews.created_at`.
   */
  lemma SortColumnGate(sortBy: string)
    ensures ToLower(sortBy) in AllowedSortBy && sortBy == "comment_count" ==>
      OrderColumn(sortBy) == sortBy
    ensures ToLower(sortBy) in AllowedSortBy && sortBy != "comment_count" ==>
      OrderColumn(sortBy) == "reviews." + sortBy
    ensures ToLower(sortBy) !in AllowedSortBy ==> OrderColumn(sortBy) == "reviews.created_at"
  {
  }

  /**
   * Whatever the caller sends, the ORDER BY clause holds only identifier
   * characters: text that could end the clause or start another one is
   * never interpolated.
   */
  lemma {:induction false} OrderByIsIdentifierText(sortBy: string, order: string)
    ensures IsColumnText(OrderColumn(sortBy))
    ensures IsWord(Direction(order))
  {
    AllowedWordsAreWords();
    var column := OrderColumn(sortBy);
    if ToLower(sortBy) in AllowedSortBy {
      WordUnderLower(sortBy);
    }
    assert IsWord(DefaultSortBy);
    assert IsColumnText(Qualifier);
    forall i | 0 <= i < |column|
      ensures IsWordChar(column[i]) || column[i] == '.'
    {
      if column != sortBy && i >= |Qualifier| {
        assert column[i] == Unqualified(column)[i - |Qualifier|];
      }
    }
    WordUnderLower(Direction(order));
  }

  /**
   * Two rejected sort texts give the same listing plan, and so do two
   * rejected directions: a value the gate refuses leaves no trace.
   */
  lemma RejectedSortByIsInvisible(o: ReviewsOptions, s1: string, s2: string)
    requires ToLower(s1) !in AllowedSortBy && ToLower(s2) !in AllowedSortBy
    ensures ListingPlan(o.(sortBy := Some(s1))) == ListingPlan(o.(sortBy := Some(s2)))
    ensures ListingPlan(o.(sortBy := Some(s1))) == ListingPlan(o.(sortBy := Some(DefaultSortBy)))
  {
    CreatedAtIsNotAllowListed();
  }

  lemma RejectedOrderIsInvisible(o: ReviewsOptions, d1: string, d2: string)
    requires ToLower(d1) !in AllowedOrder && ToLower(d2) !in AllowedOrder
    ensures ListingPlan(o.(order := Some(d1))) == ListingPlan(o.(order := Some(d2)))
    ensures ListingPlan(o.(order := Some(d1))) == ListingPlan(o.(order := None))
  {
  }

  /**
   * `created_at`, the default, is not on the allow-list: asking for it
   * explicitly reaches the same clause through the fallback.
   */
  lemma CreatedAtIsNotAllowListed()
    ensures ToLower(DefaultSortBy) !in AllowedSortBy
    ensures OrderColumn(DefaultSortBy) == "reviews.created_at"
  {
    assert ToLower(DefaultSortBy) == DefaultSortBy;
    assert DefaultSortBy !in AllowedSortBy;
    assert OrderColumn(DefaultSortBy) == Qualifier + DefaultSortBy;
  }

  /** With neither sort_by nor order given the listing is newest first. */
  lemma DefaultOrdering(o: ReviewsOptions)
    requires o.sortBy.None? && o.order.None?
    ensures OrderColumn(SortByOf(o)) == "reviews.created_at"
    ensures Direction(OrderOf(o)) == "desc"
  {
    CreatedAtIsNotAllowListed();
    assert ToLower(DefaultOrder) == DefaultOrder;
  }

  /**
   * The gate compares in lower case but interpolates the text as typed:
   * the upper-case alias is accepted and then qualified, since only the
   * exact alias goes bare.
   */
  lemma UpperCaseAliasIsQualified()
    ensures OrderColumn("COMMENT_COUNT") == "reviews.COMMENT_COUNT"
  {
    assert ToLower("COMMENT_COUNT") == "comment_count";
    assert AllowedSortBy[5] == "comment_count";
    assert "COMMENT_COUNT" != "comment_count" by {
      assert "COMMENT_COUNT"[0] != "comment_count"[0];
    }
    assert OrderColumn("COMMENT_COUNT") == Qualifier + "COMMENT_COUNT";
  }

  /** An accepted direction reaches the statement with its case unchanged. */
  lemma DirectionIsInterpolatedAsTyped()
    ensures Direction("ASC") == "ASC"
  {
    assert ToLower("ASC") == "asc";
  }

  /* ---------------- placeholders and bound values ---------------- */

  lemma ListingParams(o: ReviewsOptions)
    ensures o.category.Some? ==>
      ListingPlan(o).params == [Text(o.category.value), Number(LimitOf(o)), Number(Offset(LimitOf(o), PageOf(o)))]
    ensures o.category.None? ==>
      ListingPlan(o).params == [Number(LimitOf(o)), Number(Offset(LimitOf(o), PageOf(o)))]
  {
  }

  /** The defaults bind ten rows from the start: `[10, 0]`. */
  lemma DefaultPaging(o: ReviewsOptions)
    requires o.limit.None? && o.p.None?
    ensures ListingPlan(o).params == CategoryParams(o.category) + [Number(10), Number(0)]
  {
    assert [Number(10)] + [Number(0)] == [Number(10), Number(0)];
  }

  lemma {:induction false} ListingClausesSlots(filter: seq<Clause<nat>>, orderBy: Clause<nat>)
    requires orderBy.OrderBy?
    ensures Slots<nat>(ListingClauses(filter, orderBy))
         == Slots<nat>(filter) + [|filter| + 1, |filter| + 2]
  {
    var n := |filter|;
    var a := [SelectReviews] + filter;
    var b := a + [GroupByReview];
    var c := b + [orderBy];
    var d := c + [LimitOffset(n + 1, n + 2)];
    SlotsAppend([SelectReviews], filter);
    SlotsAppend(a, [GroupByReview]);
    SlotsAppend(b, [orderBy]);
    SlotsAppend(c, [LimitOffset(n + 1, n + 2)]);
    SlotsAppend(d, [End]);
    SlotsSingle<nat>(SelectReviews);
    SlotsSingle<nat>(GroupByReview);
    SlotsSingle(orderBy);
    SlotsSingle<nat>(LimitOffset(n + 1, n + 2));
    SlotsSingle<nat>(End);
    assert Slots<nat>(a) == Slots(filter);
    assert Slots<nat>(c) == Slots(filter);
    assert Slots<nat>(d) == Slots(filter) + [n + 1, n + 2];
    assert Slots<nat>(d + [End]) == Slots(filter) + [n + 1, n + 2];
  }

  /**
   * The k-th placeholder of the listing text is `$k`, and there are exactly
   * as many placeholders as bound values.
   */
  lemma ListingSlotsAligned(o: ReviewsOptions)
    ensures |Slots(ListingPlan(o).clauses)| == |ListingPlan(o).params|
    ensures forall i :: 0 <= i < |ListingPlan(o).params| ==> Slots(ListingPlan(o).clauses)[i] == i + 1
  {
    var filter := CategoryFilter(o.category);
    ListingClausesSlots(filter, OrderBy(OrderColumn(SortByOf(o)), Direction(OrderOf(o))));
    ListingParams(o);
    if o.category.Some? {
      assert Slots(filter) == [1] by {
        assert filter[1..] == [];
      }
    }
  }

  /**
   * What the store executes: the listing is accepted with its own values,
   * the category (if any) is compared as a bound value, and LIMIT and
   * OFFSET receive the page size and `(p - 1) * limit`. The category text
   * itself never appears in the statement.
   */
  lemma ListingBinds(o: ReviewsOptions)
    ensures var limit := LimitOf(o);
      var orderBy := OrderBy(OrderColumn(SortByOf(o)), Direction(OrderOf(o)));
      var paging := LimitOffset(Number(limit), Number(Offset(limit, PageOf(o))));
      Bind(ListingPlan(o).clauses, ListingPlan(o).params) ==
        if o.category.Some?
        then Some([SelectReviews, WhereCategory(Text(o.category.value)), GroupByReview, orderBy, paging, End])
        else Some([SelectReviews, GroupByReview, orderBy, paging, End])
  {
    ListingSlotsAligned(o);
    BindConsecutive(ListingPlan(o).clauses, ListingPlan(o).params);
    ListingSubstitutes(o);
  }

  /** Substituting the listing's values into its clauses. */
  lemma ListingSubstitutes(o: ReviewsOptions)
    ensures var limit := LimitOf(o);
      var orderBy := OrderBy(OrderColumn(SortByOf(o)), Direction(OrderOf(o)));
      var paging := LimitOffset(Number(limit), Number(Offset(limit, PageOf(o))));
      Substitute(ListingPlan(o).clauses, ListingPlan(o).params) ==
        if o.category.Some?
        then Some([SelectReviews, WhereCategory(Text(o.category.value)), GroupByReview, orderBy, paging, End])
        else Some([SelectReviews, GroupByReview, orderBy, paging, End])
  {
    var ps := ListingPlan(o).params;
    var filter := CategoryFilter(o.category);
    var column, direction := OrderColumn(SortByOf(o)), Direction(OrderOf(o));
    var paging := LimitOffset(Number(LimitOf(o)), Number(Offset(LimitOf(o), PageOf(o))));
    ListingParams(o);
    if o.category.Some? {
      SubstituteSingle(WhereCategory(1), ps);
      SubstituteListingClauses(filter, column, direction, ps);
      assert LimitOffset(ps[1], ps[2]) == paging;
      assert [SelectReviews] + [WhereCategory(Text(o.category.value))]
          + [GroupByReview, OrderBy(column, direction), paging, End]
          == [SelectReviews, WhereCategory(Text(o.category.value)), GroupByReview, OrderBy(column, direction), paging, End];
    } else {
      SubstituteListingClauses(filter, column, direction, ps);
      assert LimitOffset(ps[0], ps[1]) == paging;
      assert [SelectReviews] + [] + [GroupByReview, OrderBy(column, direction), paging, End]
          == [SelectReviews, GroupByReview, OrderBy(column, direction), paging, End];
    }
  }

  /**
   * Substituting into the listing clauses: the filter's slots as the filter
   * takes them, LIMIT and OFFSET from the two values after the filter's.
   */
  lemma {:induction false} SubstituteListingClauses(filter: seq<Clause<nat>>, column: string, direction: string, ps: seq<Param>)
    requires filter == [] || filter == [WhereCategory(1)]
    requires Substitute(filter, ps).Some? && |filter| + 2 <= |ps|
    ensures var n := |filter|;
      Substitute(ListingClauses(filter, OrderBy(column, direction)), ps) ==
        Some([SelectReviews] + Substitute(filter, ps).value
          + [GroupByReview, OrderBy(column, direction), LimitOffset(ps[n], ps[n + 1]), End])
  {
    var n := |filter|;
    var orderBy: Clause<nat> := OrderBy(column, direction);
    var head := [SelectReviews] + filter;
    SubstituteSingle(SelectReviews, ps);
    SubstituteAppend([SelectReviews], filter, ps);
    SubstituteSnoc(head, GroupByReview, ps);
    SubstituteSnoc(head + [GroupByReview], orderBy, ps);
    SubstituteSnoc(head + [GroupByReview] + [orderBy], LimitOffset(n + 1, n + 2), ps);
    SubstituteSnoc(head + [GroupByReview] + [orderBy] + [LimitOffset(n + 1, n + 2)], End, ps);
    var bound := [SelectReviews] + Substitute(filter, ps).value;
    assert Substitute(ListingClauses(filter, orderBy), ps) == Some(
      bound + [GroupByReview] + [OrderBy(column, direction)] + [LimitOffset(ps[n], ps[n + 1])] + [End]);
    assert bound + [GroupByReview] + [OrderBy(column, direction)] + [LimitOffset(ps[n], ps[n + 1])] + [End]
        == bound + [GroupByReview, OrderBy(column, direction), LimitOffset(ps[n], ps[n + 1]), End];
  }

  /** The listing text is the same whichever category is asked for. */
  lemma ListingTextIgnoresCategoryValue(o: ReviewsOptions, c1: string, c2: string)
    ensures RenderAll(ListingPlan(o.(category := Some(c1))).clauses)
         == RenderAll(ListingPlan(o.(category := Some(c2))).clauses)
  {
  }

  /* ---------------- clause order ---------------- */

  /** The position a clause takes in a statement. */
  function Rank<S>(c: Clause<S>): nat {
    match c
    case SelectReviews => 0
    case SelectCount => 0
    case WhereCategory(_) => 1
    case GroupByReview => 2
    case OrderBy(_, _) => 3
    case LimitOffset(_, _) => 4
    case End => 5
  }

  predicate InClauseOrder<S>(cs: seq<Clause<S>>) {
    forall i, j :: 0 <= i < j < |cs| ==> Rank(cs[i]) < Rank(cs[j])
  }

  /** The positions of a statement's clauses, clause by clause. */
  function Ranks<S>(cs: seq<Clause<S>>): seq<nat> {
    seq(|cs|, i requires 0 <= i < |cs| => Rank(cs[i]))
  }

  /**
   * SELECT, then the optional WHERE, GROUP BY, ORDER BY, LIMIT/OFFSET and
   * the terminator, each exactly once and in this order; the WHERE clause
   * is there exactly when a category is given.
   */
  lemma ListingClauseOrder(o: ReviewsOptions)
    ensures InClauseOrder(ListingPlan(o).clauses)
    ensures Ranks(ListingPlan(o).clauses) ==
      if o.category.Some? then [0, 1, 2, 3, 4, 5] else [0, 2, 3, 4, 5]
    ensures ListingPlan(o).clauses[0] == SelectReviews
    ensures ListingPlan(o).clauses[|ListingPlan(o).clauses| - 1] == End
    ensures WhereCategory(1) in ListingPlan(o).clauses <==> o.category.Some?
  {
    ListingClausesInOrder(CategoryFilter(o.category), OrderColumn(SortByOf(o)), Direction(OrderOf(o)));
  }

  lemma ListingClausesInOrder(filter: seq<Clause<nat>>, column: string, direction: string)
    requires filter == [] || filter == [WhereCategory(1)]
    ensures var cs := ListingClauses(filter, OrderBy(column, direction));
      InClauseOrder(cs) && cs[0] == SelectReviews && cs[|cs| - 1] == End
    ensures Ranks(ListingClauses(filter, OrderBy(column, direction))) ==
      if filter == [] then [0, 2, 3, 4, 5] else [0, 1, 2, 3, 4, 5]
    ensures WhereCategory(1) in ListingClauses(filter, OrderBy(column, direction)) <==> filter != []
  {
    var orderBy: Clause<nat> := OrderBy(column, direction);
    var cs := ListingClauses(filter, orderBy);
    if filter == [] {
      assert cs == [SelectReviews, GroupByReview, orderBy, LimitOffset(1, 2), End];
    } else {
      assert cs == [SelectReviews, WhereCategory(1), GroupByReview, orderBy, LimitOffset(2, 3), End];
    }
  }

  /* ---------------- the total-count statement ---------------- */

  /**
   * The count statement filters on the category exactly when one is given,
   * reading it from `$1`, and has no GROUP BY, ORDER BY, LIMIT or OFFSET.
   */
  lemma CountPlanScope(category: Option<string>)
    ensures WhereCategory(1) in CountPlan(category) <==> category.Some?
    ensures Slots(CountPlan(category)) == if category.Some? then [1] else []
    ensures forall c :: c in CountPlan(category) ==> Rank(c) != 2 && Rank(c) != 3 && Rank(c) != 4
  {
    SlotsSingle<nat>(SelectCount);
    if category.Some? {
      SlotsAppend<nat>([SelectCount], [WhereCategory(1)]);
      SlotsAppend<nat>([SelectCount] + [WhereCategory(1)], [End]);
      SlotsSingle<nat>(WhereCategory(1));
      SlotsSingle<nat>(End);
      assert CountPlan(category) == [SelectCount, WhereCategory(1), End];
    }
  }

  /**
   * Sent with the category as its only value (no value without a category),
   * the count statement is accepted and compares with the category.
   */
  lemma CountBindsCategory(category: Option<string>)
    ensures Bind(CountPlan(category), CategoryParams(category)) ==
      if category.Some?
      then Some([SelectCount, WhereCategory(Text(category.value)), End])
      else Some([SelectCount])
  {
    var ps := CategoryParams(category);
    CountPlanScope(category);
    BindConsecutive(CountPlan(category), ps);
    SubstituteSingle(SelectCount, ps);
    if category.Some? {
      SubstituteSnoc([SelectCount], WhereCategory(1), ps);
      SubstituteSnoc([SelectCount] + [WhereCategory(1)], End, ps);
      assert CountPlan(category) == [SelectCount] + [WhereCategory(1)] + [End];
      assert BindClause(WhereCategory(1), ps) == Some(WhereCategory(Text(category.value)));
      assert [SelectCount] + [WhereCategory(Text(category.value))] + [End]
          == [SelectCount, WhereCategory(Text(category.value)), End];
    }
  }

  /**
   * The count statement cannot be sent with the listing's value list: that
   * list always holds more values than the count statement has placeholders.
   */
  lemma CountRefusesListingValues(o: ReviewsOptions)
    ensures Bind(CountPlan(o.category), ListingPlan(o).params) == None
  {
    CountPlanScope(o.category);
    ListingParams(o);
    var slots := Slots(CountPlan(o.category));
    assert MaxSlot(slots) <= 1;
  }

  /* ---------------- the INSERT ---------------- */

  /**
   * The image column is named, and bound to the image URL, exactly when the
   * payload carries one; the five other columns are always named and bound
   * to their own fields.
   */
  lemma InsertShape(r: ReviewPayload)
    ensures var q := FormatAddReviewQuery(r);
      "review_img_url" in ReviewColumns[..|q.valsArr|] <==> !r.reviewImgUrl.Undefined?
    ensures var q := FormatAddReviewQuery(r);
      q.valsArr[..5] == [r.owner, r.title, r.reviewBody, r.designer, r.category]
    ensures !r.reviewImgUrl.Undefined? ==> FormatAddReviewQuery(r).valsArr[5] == r.reviewImgUrl
  {
    var q := FormatAddReviewQuery(r);
    assert ReviewColumns[..6] == ReviewColumns;
    assert ReviewColumns[..5] == ["owner", "title", "review_body", "designer", "category"];
    ColumnFields(r);
  }

  /* ---------------- the not-found rule ---------------- */

  /** The rule does not look at the value it guards. */
  lemma RowCountCheckUniform<T>(count: nat, v1: T, v2: T, message: string, status: Option<int>)
    ensures RowCountCheck(count, v1, message, status).Err? == RowCountCheck(count, v2, message, status).Err?
    ensures count == 0 ==>
      RowCountCheck(count, v1, message, status).rejection == RowCountCheck(count, v2, message, status).rejection
  {
  }
}
