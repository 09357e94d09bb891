/** Rendering dashboard filters as a WHERE clause with bind parameters
    (internal/api/filters.go) and the clause the decision history shares between
    two queries (internal/api/decisions.go).

    A fragment is kept structured: which column it tests, how, and the positions
    of the arguments it reads. Times are numbers. */
module Filters {
  import opened Common

  datatype Value = Null | Text(text: string) | Texts(texts: seq<string>) | Number(number: int)

  datatype Column =
    | Merchant | State | Kind | Network | Reason | Currency | Amount | OpenedAt | DeadlineAt
    | Reference | TransactionRef | Outcome | Review | ReviewedBy

  /** A row as a query sees it; a column of a table it does not join is absent. */
  datatype Row = Row(cells: map<Column, Value>) {
    function Get(c: Column): Value { if c in cells then cells[c] else Null }
  }

  datatype Test = AnyOf | Equals | AtLeast | AtMost | Before

  datatype Cond =
    | Bound(test: Test, column: Column, pos: nat)
    | InOpenStates
    | EitherReference(pos: nat, again: nat)
    | Overridden(outcomePos: nat, reviewPos: nat)
    | Reviewed

  // ----------------------------------------------------- what a fragment means

  /** SQL's LIKE: '%' stands for any text, '_' for any character, '\' escapes. */
  predicate Like(text: string, pattern: string)
    decreases |pattern|, |text|
  {
    if pattern == "" then text == ""
    else if pattern[0] == '%' then Like(text, pattern[1..]) || (text != "" && Like(text[1..], pattern))
    else if pattern[0] == '\\' && |pattern| > 1 then text != "" && text[0] == pattern[1] && Like(text[1..], pattern[2..])
    else text != "" && (pattern[0] == '_' || text[0] == pattern[0]) && Like(text[1..], pattern[1..])
  }

  predicate Passes(test: Test, cell: Value, arg: Value) {
    match test
    case AnyOf => cell.Text? && arg.Texts? && cell.text in arg.texts
    case Equals => cell != Null && cell == arg
    case AtLeast => cell.Number? && arg.Number? && cell.number >= arg.number
    case AtMost => cell.Number? && arg.Number? && cell.number <= arg.number
    case Before => cell.Number? && arg.Number? && cell.number < arg.number
  }

  predicate StartsWith(cell: Value, arg: Value) {
    cell.Text? && arg.Text? && Like(cell.text, arg.text + "%")
  }

  function Positions(c: Cond): seq<nat> {
    match c
    case Bound(_, _, p) => [p]
    case EitherReference(p, q) => [p, q]
    case Overridden(p, q) => [p, q]
    case _ => []
  }

  predicate Holds(c: Cond, args: seq<Value>, row: Row)
    requires Fits(c, |args|)
  {
    match c
    case Bound(test, column, p) => Passes(test, row.Get(column), args[p - 1])
    case InOpenStates => row.Get(State) in {Text("received"), Text("resolving")}
    case EitherReference(p, q) => StartsWith(row.Get(Reference), args[p - 1]) || StartsWith(row.Get(TransactionRef), args[q - 1])
    case Overridden(p, q) => Passes(Equals, row.Get(Outcome), args[p - 1]) && Passes(Equals, row.Get(Review), args[q - 1])
    case Reviewed => row.Get(Review) != Null
  }

  predicate Fits(c: Cond, n: nat) {
    match c
    case Bound(_, _, p) => 1 <= p <= n
    case EitherReference(p, q) => 1 <= p <= n && 1 <= q <= n
    case Overridden(p, q) => 1 <= p <= n && 1 <= q <= n
    case _ => true
  }

  predicate InRange(conds: seq<Cond>, n: nat) {
    forall c | c in conds :: Fits(c, n)
  }

  /** The rendered clause: every condition, under the bound arguments. */
  predicate Where(conds: seq<Cond>, args: seq<Value>, row: Row)
    requires InRange(conds, |args|)
  {
    forall c | c in conds :: Holds(c, args, row)
  }

  predicate ReadBy(conds: seq<Cond>, p: nat) {
    exists c | c in conds :: p in Positions(c)
  }

  /** Every argument is read by some condition: a database refuses a query that
      is handed arguments its text never mentions. */
  ghost predicate AllRead(conds: seq<Cond>, n: nat) {
    forall p: nat | 1 <= p <= n :: ReadBy(conds, p)
  }

  /** Arguments bound later do not change what the clause means. */
  lemma MoreArguments(conds: seq<Cond>, args: seq<Value>, more: seq<Value>, row: Row)
    requires InRange(conds, |args|)
    ensures InRange(conds, |args + more|)
    ensures Where(conds, args + more, row) == Where(conds, args, row)
  {
    forall c | c in conds
      ensures Fits(c, |args + more|) && Holds(c, args + more, row) == Holds(c, args, row)
    {
      assert Fits(c, |args|);
    }
  }

  lemma OneMoreCondition(conds: seq<Cond>, args: seq<Value>, c: Cond, more: seq<Value>, row: Row)
    requires InRange(conds, |args|) && Fits(c, |args + more|)
    ensures InRange(conds + [c], |args + more|)
    ensures Where(conds + [c], args + more, row) == (Where(conds, args, row) && Holds(c, args + more, row))
  {
    MoreArguments(conds, args, more, row);
    assert c in conds + [c];
    assert forall d | d in conds :: d in conds + [c];
  }

  // ------------------------------------------------------------- the builder

  class Builder {
    var conds: seq<Cond>
    var args: seq<Value>

    constructor ()
      ensures conds == [] && args == []
    {
      conds, args := [], [];
    }

    ghost predicate Valid() reads this {
      InRange(conds, |args|) && AllRead(conds, |args|)
    }

    ghost predicate Keeps(row: Row)
      requires Valid()
      reads this
    {
      Where(conds, args, row)
    }

    /** Whether the clause reads the transactions table. */
    predicate Searches() reads this {
      exists c | c in conds :: c.EitherReference?
    }

    /** One condition and the value it tests. */
    method Add(test: Test, column: Column, value: Value)
      requires Valid()
      modifies this
      ensures Valid() && args == old(args) + [value]
      ensures Searches() == old(Searches())
      ensures forall row :: Keeps(row) == (old(Keeps(row)) && Passes(test, row.Get(column), value))
    {
      var n := |args| + 1;
      Push(Bound(test, column, n), [value]);
      assert args[n - 1] == value;
    }

    method Push(c: Cond, values: seq<Value>)
      requires Valid() && Fits(c, |args + values|)
      requires forall p: nat | |args| < p <= |args + values| :: p in Positions(c)
      modifies this
      ensures Valid() && args == old(args) + values && Searches() == (old(Searches()) || c.EitherReference?)
      ensures forall row :: Keeps(row) == (old(Keeps(row)) && Holds(c, args, row))
    {
      forall row
        ensures InRange(conds + [c], |args + values|)
        ensures Where(conds + [c], args + values, row) == (Where(conds, args, row) && Holds(c, args + values, row))
      {
        OneMoreCondition(conds, args, c, values, row);
      }
      forall p: nat | 1 <= p <= |args + values|
        ensures ReadBy(conds + [c], p)
      {
        if p <= |args| {
          assert ReadBy(conds, p);
          var d :| d in conds && p in Positions(d);
          assert d in conds + [c];
        } else {
          assert c in conds + [c];
        }
      }
      assert forall d :: d in conds + [c] <==> d in conds || d == c;
      conds, args := conds + [c], args + values;
    }
  }

  // --------------------------------------------------------- dashboard filters

  datatype Filters = Filters(
    merchants: seq<string>, states: seq<string>, kinds: seq<string>, networks: seq<string>, reasons: seq<string>,
    currency: string, minAmount: Option<int>, maxAmount: Option<int>,
    openedFrom: Option<int>, openedTo: Option<int>, dueWithin: Option<int>, openOnly: bool, search: string)

  predicate OneOf(row: Row, column: Column, wanted: seq<string>) {
    wanted == [] || exists s | s in wanted :: row.Get(column) == Text(s)
  }

  predicate OfParty(f: Filters, row: Row) {
    OneOf(row, Merchant, f.merchants) && OneOf(row, State, f.states) && OneOf(row, Kind, f.kinds)
  }

  predicate OfCard(f: Filters, row: Row) {
    OneOf(row, Network, f.networks) && OneOf(row, Reason, f.reasons)
  }

  predicate InMoney(f: Filters, row: Row) {
    var amount := row.Get(Amount);
    && (f.currency == "" || row.Get(Currency) == Text(f.currency))
    && (f.minAmount.None? || (amount.Number? && f.minAmount.value <= amount.number))
    && (f.maxAmount.None? || (amount.Number? && amount.number <= f.maxAmount.value))
  }

  predicate InTime(f: Filters, row: Row) {
    var openedAt := row.Get(OpenedAt);
    && (f.openedFrom.None? || (openedAt.Number? && f.openedFrom.value <= openedAt.number))
    && (f.openedTo.None? || (openedAt.Number? && openedAt.number < f.openedTo.value))
  }

  predicate StillDue(f: Filters, now: int, row: Row) {
    && (f.openOnly || f.dueWithin.Some? ==> row.Get(State) in {Text("received"), Text("resolving")})
    && (f.dueWithin.Some? ==> row.Get(DeadlineAt).Number? && row.Get(DeadlineAt).number <= now + f.dueWithin.value)
  }

  predicate Found(f: Filters, row: Row) {
    f.search == "" || StartsWith(row.Get(Reference), Text(f.search)) || StartsWith(row.Get(TransactionRef), Text(f.search))
  }

  /** Which rows the filters ask for, said without a query. */
  predicate Wanted(f: Filters, now: int, row: Row) {
    OfParty(f, row) && OfCard(f, row) && InMoney(f, row) && InTime(f, row) && StillDue(f, now, row) && Found(f, row)
  }

  method ApplyParty(f: Filters, b: Builder)
    requires b.Valid()
    modifies b
    ensures b.Valid() && old(b.args) <= b.args && b.Searches() == old(b.Searches())
    ensures forall row :: b.Keeps(row) == (old(b.Keeps(row)) && OfParty(f, row))
  {
    if f.merchants != [] { b.Add(AnyOf, Merchant, Texts(f.merchants)); }
    if f.states != [] { b.Add(AnyOf, State, Texts(f.states)); }
    if f.kinds != [] { b.Add(AnyOf, Kind, Texts(f.kinds)); }
  }

  method ApplyCard(f: Filters, b: Builder)
    requires b.Valid()
    modifies b
    ensures b.Valid() && old(b.args) <= b.args && b.Searches() == old(b.Searches())
    ensures forall row :: b.Keeps(row) == (old(b.Keeps(row)) && OfCard(f, row))
  {
    if f.networks != [] { b.Add(AnyOf, Network, Texts(f.networks)); }
    if f.reasons != [] { b.Add(AnyOf, Reason, Texts(f.reasons)); }
  }

  method ApplyMoney(f: Filters, b: Builder)
    requires b.Valid()
    modifies b
    ensures b.Valid() && old(b.args) <= b.args && b.Searches() == old(b.Searches())
    ensures forall row :: b.Keeps(row) == (old(b.Keeps(row)) && InMoney(f, row))
  {
    if f.currency != "" { b.Add(Equals, Currency, Text(f.currency)); }
    if f.minAmount.Some? { b.Add(AtLeast, Amount, Number(f.minAmount.value)); }
    if f.maxAmount.Some? { b.Add(AtMost, Amount, Number(f.maxAmount.value)); }
  }

  method ApplyTime(f: Filters, b: Builder)
    requires b.Valid()
    modifies b
    ensures b.Valid() && old(b.args) <= b.args && b.Searches() == old(b.Searches())
    ensures forall row :: b.Keeps(row) == (old(b.Keeps(row)) && InTime(f, row))
  {
    if f.openedFrom.Some? { b.Add(AtLeast, OpenedAt, Number(f.openedFrom.value)); }
    if f.openedTo.Some? { b.Add(Before, OpenedAt, Number(f.openedTo.value)); }
  }

  /** The rendered clause keeps exactly the rows the filters ask for, and reads
      the transactions table exactly when there is a search. */
  method Apply(f: Filters, b: Builder, now: int)
    requires b.Valid()
    modifies b
    ensures b.Valid() && old(b.args) <= b.args && b.Searches() == (old(b.Searches()) || f.search != "")
    ensures forall row :: b.Keeps(row) == (old(b.Keeps(row)) && Wanted(f, now, row))
  {
    ApplyParty(f, b);
    ApplyCard(f, b);
    ApplyMoney(f, b);
    ApplyTime(f, b);
    if f.openOnly || f.dueWithin.Some? { b.Push(InOpenStates, []); }
    if f.dueWithin.Some? { b.Add(AtMost, DeadlineAt, Number(now + f.dueWithin.value)); }
    if f.search != "" {
      var n := |b.args| + 1;
      b.Push(EitherReference(n, n), [Text(f.search)]);
    }
  }

  // ------------------------------------------------- what a search text matches

  predicate Plain(u: string) { '%' !in u && '_' !in u && '\\' !in u }

  lemma {:induction false} PlainPrefix(p: string, text: string, pattern: string)
    requires Plain(p)
    ensures Like(text, p + pattern) == (p <= text && Like(text[if |p| <= |text| then |p| else 0..], pattern))
  {
    if p == "" {
      assert p + pattern == pattern;
    } else {
      assert (p + pattern)[1..] == p[1..] + pattern;
      assert p[0] in p;
      if text != "" && text[0] == p[0] {
        PlainPrefix(p[1..], text[1..], pattern);
        assert forall i | 0 <= i < |p| - 1 :: p[1..][i] == p[i + 1];
        assert p <= text <==> p[1..] <= text[1..];
      }
    }
  }

  lemma {:induction false} AnythingGoes(text: string)
    ensures Like(text, "%")
  {
    assert "%"[1..] == "";
    if text != "" {
      AnythingGoes(text[1..]);
    }
  }

  /** A text the pattern q followed by '%' matches, no longer than q. */
  function Instance(q: string): string {
    if q == "" then ""
    else if q[0] == '%' then Instance(q[1..])
    else if q[0] == '\\' then (if |q| > 1 then [q[1]] + Instance(q[2..]) else "%")
    else [if q[0] == '_' then 'x' else q[0]] + Instance(q[1..])
  }

  lemma {:induction false} InstanceMatches(q: string)
    ensures |Instance(q)| <= |q| && Like(Instance(q), q + "%")
    decreases |q|
  {
    if q == "" {
      AnythingGoes("");
      assert q + "%" == "%";
    } else {
      assert (q + "%")[1..] == q[1..] + "%";
      if q[0] == '\\' {
        if |q| > 1 {
          assert (q + "%")[2..] == q[2..] + "%";
          InstanceMatches(q[2..]);
        } else {
          assert (q + "%")[2..] == "";
        }
      } else {
        InstanceMatches(q[1..]);
      }
    }
  }

  /** The first character that is not plain. */
  function Odd(u: string): (i: nat)
    requires !Plain(u)
    ensures i < |u| && Plain(u[..i]) && u[i] in {'%', '_', '\\'}
  {
    if u[0] in {'%', '_', '\\'} then 0 else 1 + Odd(u[1..])
  }

  /** A text that tells a search text which starts with a special character
      from a plain prefix. */
  lemma SpecialTells(u: string) returns (text: string)
    requires u != "" && u[0] in {'%', '_', '\\'}
    ensures Like(text, u + "%") != (u <= text)
  {
    var q := u[1..];
    assert (u + "%")[1..] == q + "%";
    if u[0] != '\\' {
      InstanceMatches(q);
      text := "x" + Instance(q);
      assert text[1..] == Instance(q);
    } else if q == "" || q[0] != '\\' {
      text := u;
    } else {
      assert (u + "%")[2..] == q[1..] + "%";
      InstanceMatches(q[1..]);
      text := "\\" + Instance(q[1..]);
      assert text[1..] == Instance(q[1..]);
    }
  }

  /** A search finds exactly the references that start with the search text if
      and only if the text has no character that is special to LIKE. */
  lemma SearchIsByPrefixIff(u: string)
    ensures (forall text :: Like(text, u + "%") == (u <= text)) <==> Plain(u)
  {
    if Plain(u) {
      forall text
        ensures Like(text, u + "%") == (u <= text)
      {
        PlainPrefix(u, text, "%");
        if u <= text {
          AnythingGoes(text[|u|..]);
        }
      }
    } else {
      var i := Odd(u);
      var tail := SpecialTells(u[i..]);
      var text := u[..i] + tail;
      PlainPrefix(u[..i], text, u[i..] + "%");
      assert u[..i] + (u[i..] + "%") == u + "%";
      assert text[i..] == tail;
      assert u == u[..i] + u[i..];
      assert u <= text <==> u[i..] <= tail;
      assert Like(text, u + "%") != (u <= text);
    }
  }

  // ------------------------------------------------ queries that share a clause

  /** A query's arguments and where its page reads them. */
  datatype PageOf = PageOf(args: seq<Value>, limitPos: nat, offsetPos: nat)

  /** The list query binds the page after the clause it shares with the count. */
  method PageArguments(b: Builder, limit: int, offset: int) returns (page: PageOf)
    requires b.Valid()
    ensures InRange(b.conds, |page.args|)
    ensures forall row :: Where(b.conds, page.args, row) == b.Keeps(row)
    ensures b.args <= page.args
    ensures BindsPage(page, |b.args|, limit, offset)
  {
    page := PageOf(b.args + [Number(limit), Number(offset)], |b.args| + 1, |b.args| + 2);
    forall row
      ensures InRange(b.conds, |page.args|) && Where(b.conds, page.args, row) == b.Keeps(row)
    {
      MoreArguments(b.conds, b.args, [Number(limit), Number(offset)], row);
    }
  }

  /** The last two of the arguments, and only they, are the page. */
  predicate BindsPage(page: PageOf, earlier: nat, limit: int, offset: int) {
    && page.limitPos == earlier + 1 && page.offsetPos == earlier + 2 == |page.args|
    && page.args[page.limitPos - 1] == Number(limit) && page.args[page.offsetPos - 1] == Number(offset)
  }

  datatype DecisionFilters = DecisionFilters(reviewer: string, decision: string, onlyOverrides: bool)

  /** The verifier refused the letter and a person sent it anyway. */
  predicate IsOverride(row: Row) {
    row.Get(Outcome) == Text("rejected") && row.Get(Review) == Text("submitted")
  }

  predicate DecisionWanted(f: DecisionFilters, row: Row) {
    && row.Get(Review) != Null
    && (f.reviewer == "" || row.Get(ReviewedBy) == Text(f.reviewer))
    && (f.decision == "" || row.Get(Review) == Text(f.decision))
    && (f.onlyOverrides ==> IsOverride(row))
  }

  method DecisionClause(f: DecisionFilters) returns (b: Builder)
    ensures fresh(b) && b.Valid()
    ensures forall row :: b.Keeps(row) == DecisionWanted(f, row)
  {
    b := new Builder();
    b.Push(Reviewed, []);
    if f.reviewer != "" { b.Add(Equals, ReviewedBy, Text(f.reviewer)); }
    if f.decision != "" { b.Add(Equals, Review, Text(f.decision)); }
    if f.onlyOverrides {
      b.Push(Overridden(|b.args| + 1, |b.args| + 2), [Text("rejected"), Text("submitted")]);
    }
  }

  /** The count query gets the clause and exactly the arguments it reads. The
      row query shares the clause, adds the override column and the page, and
      binds exactly two arguments for each. */
  method Decisions(f: DecisionFilters, limit: int, offset: int) returns (b: Builder, overridden: Cond, page: PageOf)
    ensures fresh(b) && b.Valid()
    ensures forall row :: b.Keeps(row) == DecisionWanted(f, row)
    ensures InRange(b.conds, |page.args|) && Fits(overridden, |page.args|)
    ensures forall row :: Where(b.conds, page.args, row) == b.Keeps(row)
    ensures forall row :: Holds(overridden, page.args, row) == IsOverride(row)
    ensures Positions(overridden) == [|b.args| + 1, |b.args| + 2] && BindsPage(page, |b.args| + 2, limit, offset)
  {
    b := DecisionClause(f);
    var n := |b.args|;
    var more := [Text("rejected"), Text("submitted"), Number(limit), Number(offset)];
    overridden := Overridden(n + 1, n + 2);
    page := PageOf(b.args + more, n + 3, n + 4);
    forall row
      ensures InRange(b.conds, |page.args|) && Where(b.conds, page.args, row) == b.Keeps(row)
    {
      MoreArguments(b.conds, b.args, more, row);
    }
  }
}
