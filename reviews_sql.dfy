/**
 * The SQL vocabulary of the review queries: bound parameter values,
 * positional placeholders `$k`, the clauses of the listing and count
 * statements, their rendering to text, and the substitution of bound
 * values into placeholder slots that the store performs.
 */
module ReviewsSql {
  import opened Wrappers

  /** A value handed to the store beside the statement text. */
  datatype Param = Text(text: string) | Number(number: int) | Undefined

  function DigitChar(d: nat): char
    requires d < 10
  {
    ('0' as int + d) as char
  }

  /** Decimal digits of `n`. */
  function Digits(n: nat): string
    decreases n
  {
    if n < 10 then [DigitChar(n)] else Digits(n / 10) + [DigitChar(n % 10)]
  }

  /** The positional placeholder for the `k`-th bound value. */
  function Placeholder(k: nat): string {
    "$" + Digits(k)
  }

  lemma PlaceholdersOneToThree()
    ensures Placeholder(1) == "$1" && Placeholder(2) == "$2" && Placeholder(3) == "$3"
  {
    assert Digits(1) == "1" && Digits(2) == "2" && Digits(3) == "3";
  }

  /**
   * A clause of a review statement. `S` is what fills a placeholder slot:
   * a slot number (`nat`) in a statement as text, or the bound value itself
   * (`Param`) once the store has substituted the parameters.
   */
  datatype Clause<S> =
    | SelectReviews            // listing columns, LEFT JOIN comments
    | SelectCount              // COUNT(review_id) AS total_count
    | WhereCategory(slot: S)   // equality filter on the category
    | GroupByReview
    | OrderBy(column: string, direction: string)
    | LimitOffset(limit: S, offset: S)
    | End                      // statement terminator

  const ReviewsSelect: string :=
    "SELECT\n    owner, title, reviews.review_id, category, review_img_url, reviews.created_at, reviews.votes, designer, COUNT(comments.review_id)::INT AS comment_count\n    FROM reviews\n    LEFT JOIN comments ON comments.review_id = reviews.review_id"

  const CountSelect: string :=
    "SELECT COUNT(review_id)::INT as total_count FROM reviews"

  /** The text of one clause. */
  function Render(c: Clause<nat>): string {
    match c
    case SelectReviews => ReviewsSelect
    case SelectCount => CountSelect
    case WhereCategory(k) => " WHERE category = " + Placeholder(k)
    case GroupByReview => " GROUP BY reviews.review_id"
    case OrderBy(column, direction) => " ORDER BY " + column + " " + direction
    case LimitOffset(l, o) => " LIMIT " + Placeholder(l) + " OFFSET " + Placeholder(o)
    case End => ";"
  }

  /** The text of a statement: its clauses' texts, in order. */
  function RenderAll(cs: seq<Clause<nat>>): string {
    Concat(seq(|cs|, i requires 0 <= i < |cs| => Render(cs[i])))
  }

  /** Strings joined end to end. */
  function Concat(parts: seq<string>): string {
    if parts == [] then "" else parts[0] + Concat(parts[1..])
  }

  lemma {:induction false} ConcatAppend(a: seq<string>, b: seq<string>)
    ensures Concat(a + b) == Concat(a) + Concat(b)
  {
    if a == [] {
      assert a + b == b;
    } else {
      assert (a + b)[1..] == a[1..] + b;
      ConcatAppend(a[1..], b);
    }
  }

  lemma RenderAllAppend(a: seq<Clause<nat>>, b: seq<Clause<nat>>)
    ensures RenderAll(a + b) == RenderAll(a) + RenderAll(b)
  {
    var ta := seq(|a|, i requires 0 <= i < |a| => Render(a[i]));
    var tb := seq(|b|, i requires 0 <= i < |b| => Render(b[i]));
    assert seq(|a + b|, i requires 0 <= i < |a + b| => Render((a + b)[i])) == ta + tb;
    ConcatAppend(ta, tb);
  }

  lemma RenderAllSingle(c: Clause<nat>)
    ensures RenderAll([c]) == Render(c)
  {
    assert seq(1, i requires 0 <= i < 1 => Render([c][i])) == [Render(c)];
    assert [Render(c)][1..] == [];
    assert Concat([Render(c)]) == Render(c) + "";
  }

  lemma RenderAllSnoc(cs: seq<Clause<nat>>, c: Clause<nat>)
    ensures RenderAll(cs + [c]) == RenderAll(cs) + Render(c)
  {
    RenderAllAppend(cs, [c]);
    RenderAllSingle(c);
  }

  /** The placeholder slots of one clause, in textual order. */
  function SlotsOf<S>(c: Clause<S>): seq<S> {
    match c
    case WhereCategory(k) => [k]
    case LimitOffset(l, o) => [l, o]
    case _ => []
  }

  /** The placeholder slots of a statement, in textual order. */
  function Slots<S>(cs: seq<Clause<S>>): seq<S> {
    if cs == [] then [] else SlotsOf(cs[0]) + Slots(cs[1..])
  }

  lemma {:induction false} SlotsAppend<S>(a: seq<Clause<S>>, b: seq<Clause<S>>)
    ensures Slots(a + b) == Slots(a) + Slots(b)
  {
    if a == [] {
      assert a + b == b;
    } else {
      assert (a + b)[1..] == a[1..] + b;
      SlotsAppend(a[1..], b);
    }
  }

  lemma SlotsSingle<S>(c: Clause<S>)
    ensures Slots([c]) == SlotsOf(c)
  {
    assert [c][1..] == [];
    assert SlotsOf(c) + [] == SlotsOf(c);
  }

  /** The value bound to placeholder `$k`, if `k` is in range. */
  function Lookup(ps: seq<Param>, k: nat): Option<Param> {
    if 1 <= k <= |ps| then Some(ps[k - 1]) else None
  }

  /** One clause with its slots replaced by the bound values. */
  function BindClause(c: Clause<nat>, ps: seq<Param>): Option<Clause<Param>> {
    match c
    case SelectReviews => Some(SelectReviews)
    case SelectCount => Some(SelectCount)
    case WhereCategory(k) =>
      if Lookup(ps, k).Some? then Some(WhereCategory(ps[k - 1])) else None
    case GroupByReview => Some(GroupByReview)
    case OrderBy(column, direction) => Some(OrderBy(column, direction))
    case LimitOffset(l, o) =>
      if Lookup(ps, l).Some? && Lookup(ps, o).Some?
      then Some(LimitOffset(ps[l - 1], ps[o - 1]))
      else None
    case End => Some(End)
  }

  /** Every slot in `slots` names one of `count` values. */
  predicate SlotsInRange(slots: seq<nat>, count: nat) {
    forall i :: 0 <= i < |slots| ==> 1 <= slots[i] <= count
  }

  lemma SlotsInRangeAppend(a: seq<nat>, b: seq<nat>, count: nat)
    ensures SlotsInRange(a + b, count) <==> SlotsInRange(a, count) && SlotsInRange(b, count)
  {
    if SlotsInRange(a, count) && SlotsInRange(b, count) {
      forall i | 0 <= i < |a + b|
        ensures 1 <= (a + b)[i] <= count
      {
        if i >= |a| {
          assert (a + b)[i] == b[i - |a|];
        }
      }
    }
    if SlotsInRange(a + b, count) {
      forall i | 0 <= i < |b|
        ensures 1 <= b[i] <= count
      {
        assert (a + b)[|a| + i] == b[i];
      }
      forall i | 0 <= i < |a|
        ensures 1 <= a[i] <= count
      {
        assert (a + b)[i] == a[i];
      }
    }
  }

  lemma BindClauseDefinedIff(c: Clause<nat>, ps: seq<Param>)
    ensures BindClause(c, ps).Some? <==> SlotsInRange(SlotsOf(c), |ps|)
  {
    match c
    case WhereCategory(k) =>
      assert SlotsOf(c) == [k] && SlotsOf(c)[0] == k;
    case LimitOffset(l, o) =>
      assert SlotsOf(c) == [l, o] && SlotsOf(c)[0] == l && SlotsOf(c)[1] == o;
    case _ =>
      assert SlotsOf(c) == [];
  }

  /**
   * Every `$k` of `cs` replaced by the `k`-th value of `ps`; `None` when a
   * placeholder has no value. Values no placeholder names are ignored here;
   * `Bind` adds the store's check on their number.
   */
  function Substitute(cs: seq<Clause<nat>>, ps: seq<Param>): Option<seq<Clause<Param>>> {
    if cs == [] then Some([])
    else
      var head := BindClause(cs[0], ps);
      var tail := Substitute(cs[1..], ps);
      if head.Some? && tail.Some? then Some([head.value] + tail.value) else None
  }

  lemma {:induction false} SubstituteAppend(a: seq<Clause<nat>>, b: seq<Clause<nat>>, ps: seq<Param>)
    ensures Substitute(a + b, ps) ==
      if Substitute(a, ps).Some? && Substitute(b, ps).Some?
      then Some(Substitute(a, ps).value + Substitute(b, ps).value)
      else None
  {
    if a == [] {
      assert a + b == b;
      if Substitute(b, ps).Some? {
        assert [] + Substitute(b, ps).value == Substitute(b, ps).value;
      }
    } else {
      assert (a + b)[1..] == a[1..] + b;
      SubstituteAppend(a[1..], b, ps);
      if Substitute(a, ps).Some? && Substitute(b, ps).Some? {
        assert [Substitute(a, ps).value[0]] + (Substitute(a[1..], ps).value + Substitute(b, ps).value)
            == Substitute(a, ps).value + Substitute(b, ps).value;
      }
    }
  }

  lemma SubstituteSingle(c: Clause<nat>, ps: seq<Param>)
    ensures Substitute([c], ps) ==
      if BindClause(c, ps).Some? then Some([BindClause(c, ps).value]) else None
  {
    assert [c][1..] == [];
    if BindClause(c, ps).Some? {
      assert [BindClause(c, ps).value] + [] == [BindClause(c, ps).value];
    }
  }

  /** Substituting into a statement extended by one clause extends the result by it. */
  lemma SubstituteSnoc(cs: seq<Clause<nat>>, c: Clause<nat>, ps: seq<Param>)
    requires Substitute(cs, ps).Some? && BindClause(c, ps).Some?
    ensures Substitute(cs + [c], ps) == Some(Substitute(cs, ps).value + [BindClause(c, ps).value])
  {
    SubstituteAppend(cs, [c], ps);
    SubstituteSingle(c, ps);
    assert Substitute([c], ps).value == [BindClause(c, ps).value];
  }

  /**
   * Substitution succeeds exactly when every placeholder of the statement
   * names one of the supplied values.
   */
  lemma {:induction false} SubstituteDefinedIff(cs: seq<Clause<nat>>, ps: seq<Param>)
    ensures Substitute(cs, ps).Some? <==> SlotsInRange(Slots(cs), |ps|)
  {
    if cs != [] {
      SubstituteDefinedIff(cs[1..], ps);
      BindClauseDefinedIff(cs[0], ps);
      SlotsInRangeAppend(SlotsOf(cs[0]), Slots(cs[1..]), |ps|);
    }
  }

  /** The highest placeholder number of a statement, 0 when it has none. */
  function MaxSlot(slots: seq<nat>): (m: nat)
    ensures forall i :: 0 <= i < |slots| ==> slots[i] <= m
    ensures slots != [] ==> m in slots
    ensures slots == [] ==> m == 0
  {
    if slots == [] then 0
    else
      var rest := MaxSlot(slots[1..]);
      if slots[0] >= rest then slots[0] else rest
  }

  /** Every placeholder number from `$1` to `$count` occurs in `slots`. */
  predicate NoSkippedSlot(slots: seq<nat>, count: nat) {
    forall k :: 1 <= k <= count ==> k in slots
  }

  /**
   * The statement the store executes when `cs` is sent with the value list
   * `ps`. The store takes the statement to have as many parameters as its
   * highest placeholder number and refuses a value list of any other
   * length. Values come without types, so a parameter number the statement
   * never uses has no type and the statement is refused. Otherwise every
   * `$k` is replaced by the `k`-th value.
   */
  function Bind(cs: seq<Clause<nat>>, ps: seq<Param>): Option<seq<Clause<Param>>> {
    if |ps| == MaxSlot(Slots(cs)) && NoSkippedSlot(Slots(cs), |ps|) then Substitute(cs, ps) else None
  }

  /**
   * The store accepts a statement and its values exactly when there are as
   * many values as the highest placeholder number, no number below it is
   * skipped, and every placeholder names one of the values.
   */
  lemma BindDefinedIff(cs: seq<Clause<nat>>, ps: seq<Param>)
    ensures Bind(cs, ps).Some? <==>
      |ps| == MaxSlot(Slots(cs)) && NoSkippedSlot(Slots(cs), |ps|) && SlotsInRange(Slots(cs), |ps|)
  {
    SubstituteDefinedIff(cs, ps);
  }

  /** A statement that skips `$2` is refused even with a value for every number. */
  lemma SkippedSlotIsRefused(ps: seq<Param>)
    requires |ps| == 3
    ensures Bind([SelectCount, WhereCategory(1), WhereCategory(3), End], ps) == None
  {
    var cs: seq<Clause<nat>> := [SelectCount, WhereCategory(1), WhereCategory(3), End];
    SlotsSingle<nat>(End);
    SlotsAppend<nat>([WhereCategory(3)], [End]);
    SlotsSingle<nat>(WhereCategory(3));
    assert cs[1..] == [WhereCategory(1)] + [WhereCategory(3), End];
    SlotsAppend<nat>([WhereCategory(1)], [WhereCategory(3), End]);
    SlotsSingle<nat>(WhereCategory(1));
    assert [WhereCategory(3), End] == [WhereCategory(3)] + [End];
    assert Slots(cs) == [1, 3];
    assert 2 !in Slots(cs);
  }

  /**
   * A statement whose placeholders are `$1` to `$n` in order, sent with `n`
   * values, is accepted and bound by substitution.
   */
  lemma BindConsecutive(cs: seq<Clause<nat>>, ps: seq<Param>)
    requires |Slots(cs)| == |ps|
    requires forall i :: 0 <= i < |ps| ==> Slots(cs)[i] == i + 1
    ensures Bind(cs, ps) == Substitute(cs, ps)
    ensures Bind(cs, ps).Some?
  {
    var slots := Slots(cs);
    if slots != [] {
      assert slots[|slots| - 1] == |slots|;
    }
    assert MaxSlot(slots) == |ps|;
    forall k | 1 <= k <= |ps|
      ensures k in slots
    {
      assert slots[k - 1] == k;
    }
    SubstituteDefinedIff(cs, ps);
  }

  /** Items separated by ", ". */
  function Join(items: seq<string>): string {
    if |items| == 0 then ""
    else if |items| == 1 then items[0]
    else items[0] + ", " + Join(items[1..])
  }

  /** "$1, $2, ..., $n". */
  function PlaceholderList(n: nat): string {
    Join(seq(n, i requires 0 <= i < n => Placeholder(i + 1)))
  }

  /**
   * An INSERT into `reviews` that names `columns`, takes one placeholder per
   * column and returns the generated `review_id`; `indent` and `terminator`
   * are the layout of the statement text.
   */
  function InsertReview(columns: seq<string>, indent: string, terminator: string): string {
    "\n" + indent + "INSERT INTO reviews\n"
    + indent + "(" + Join(columns) + ")\n"
    + indent + "VALUES (" + PlaceholderList(|columns|) + ") RETURNING review_id" + terminator
  }
}
