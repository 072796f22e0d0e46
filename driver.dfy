/**
 * The control logic of the autoloanc driver: the help decision, the
 * positional reading of balance, APR and term from the command line, the
 * term fallback of the payment overload, and the loop that emits one
 * payment row per term, stepping the term down by six months.
 *
 * The payment formula and the text-to-number conversion are library
 * floating-point code; they enter the model as function parameters.
 * Doubles are modelled as reals.
 */
module LoanDriver {

  // ---------------------------------------------------------------------
  // Loan parameters.

  /** balance, apr and term; the source overlays them with an array of three. */
  datatype FinanceParams = FinanceParams(balance: real, apr: real, term: real)

  /** The value-initialised parameters the driver starts from. */
  const Zeroed := FinanceParams(0.0, 0.0, 0.0)

  /** Slot i of the three-element array view: balance, apr, term in that order. */
  function Param(p: FinanceParams, i: nat): real
    requires i < 3
  {
    if i == 0 then p.balance else if i == 1 then p.apr else p.term
  }

  /** The parameters with slot i of the array view overwritten by v. */
  function WithParam(p: FinanceParams, i: nat, v: real): (q: FinanceParams)
    requires i < 3
    ensures Param(q, i) == v
    ensures forall j :: 0 <= j < 3 && j != i ==> Param(q, j) == Param(p, j)
  {
    if i == 0 then p.(balance := v) else if i == 1 then p.(apr := v) else p.(term := v)
  }

  /** The (int) conversion of a double: truncation toward zero. */
  function TruncateToInt(x: real): (n: int)
    ensures 0.0 <= x ==> 0 <= n && n as real <= x < n as real + 1.0
    ensures x < 0.0 ==> n <= 0 && n as real - 1.0 < x <= n as real
  {
    if x >= 0.0 then x.Floor else -((-x).Floor)
  }

  // ---------------------------------------------------------------------
  // The term schedule.

  /** The loop decrement of the term, in months. */
  const TermStep := 6

  /** The terms the loop visits from t: t, t - 6, ... while positive. */
  function TermSchedule(t: int): seq<int>
    decreases t
  {
    if t <= 0 then [] else [t] + TermSchedule(t - TermStep)
  }

  /**
   * The schedule holds ceil(t / 6) terms for positive t and none otherwise;
   * term i is t - 6i, every term is positive, consecutive terms differ by
   * exactly six, and one more step would leave the positive range.
   */
  lemma {:induction false} TermScheduleShape(t: int)
    ensures |TermSchedule(t)| == if t > 0 then (t + TermStep - 1) / TermStep else 0
    ensures forall i :: 0 <= i < |TermSchedule(t)| ==>
              TermSchedule(t)[i] == t - TermStep * i && TermSchedule(t)[i] > 0
    ensures forall i :: 0 <= i < |TermSchedule(t)| - 1 ==>
              TermSchedule(t)[i + 1] == TermSchedule(t)[i] - TermStep
    ensures t - TermStep * |TermSchedule(t)| <= 0
    decreases t
  {
    if t > 0 {
      TermScheduleShape(t - TermStep);
      var rest := TermSchedule(t - TermStep);
      assert TermSchedule(t) == [t] + rest;
      forall i | 0 <= i < |TermSchedule(t)|
        ensures TermSchedule(t)[i] == t - TermStep * i
      {
        if i > 0 {
          assert TermSchedule(t)[i] == rest[i - 1];
        }
      }
    }
  }

  // ---------------------------------------------------------------------
  // Payments.

  /** The payment formula calculateMonthlyPayment(balance, apr, term). */
  type PaymentFormula = (real, real, int) -> real

  /**
   * The forwarding overload: the alternative term when it is positive,
   * otherwise the parameters' own term converted to int.
   */
  function MonthlyPayment(p: FinanceParams, altTerm: int, pay: PaymentFormula): (m: real)
    ensures altTerm > 0 ==> m == pay(p.balance, p.apr, altTerm)
    ensures altTerm <= 0 ==> m == pay(p.balance, p.apr, TruncateToInt(p.term))
  {
    pay(p.balance, p.apr, if altTerm > 0 then altTerm else TruncateToInt(p.term))
  }

  /** One line of the driver's table. */
  datatype PaymentRow = PaymentRow(total: real, interest: real, monthly: real, term: int)

  /** The row for one term: total paid, interest paid, monthly payment, term. */
  function RowFor(p: FinanceParams, aterm: int, pay: PaymentFormula): PaymentRow
  {
    var m := MonthlyPayment(p, aterm, pay);
    var tloan := m * aterm as real;
    PaymentRow(tloan, tloan - p.balance, m, aterm)
  }

  /** The rows the loop emits when it starts at aterm. */
  function ScheduleFrom(p: FinanceParams, aterm: int, pay: PaymentFormula): seq<PaymentRow>
    decreases aterm
  {
    if aterm <= 0 then [] else [RowFor(p, aterm, pay)] + ScheduleFrom(p, aterm - TermStep, pay)
  }

  /** The rows of the table for these parameters. */
  function Schedule(p: FinanceParams, pay: PaymentFormula): seq<PaymentRow>
  {
    ScheduleFrom(p, TruncateToInt(p.term), pay)
  }

  /**
   * Row i is for the i-th term of the schedule; its payment is the formula
   * applied to that term (the fallback to the parameters' term never
   * applies inside the loop), its total is payment times term and its
   * interest is total minus balance.
   */
  lemma {:induction false} ScheduleFromRows(p: FinanceParams, aterm: int, pay: PaymentFormula)
    ensures |ScheduleFrom(p, aterm, pay)| == |TermSchedule(aterm)|
    ensures forall i :: 0 <= i < |ScheduleFrom(p, aterm, pay)| ==>
              var row := ScheduleFrom(p, aterm, pay)[i];
              row.term == TermSchedule(aterm)[i]
              && row.monthly == pay(p.balance, p.apr, row.term)
              && row.total == row.monthly * row.term as real
              && row.interest == row.total - p.balance
    decreases aterm
  {
    if aterm > 0 {
      ScheduleFromRows(p, aterm - TermStep, pay);
      var rows := ScheduleFrom(p, aterm, pay);
      var rest := ScheduleFrom(p, aterm - TermStep, pay);
      assert rows == [RowFor(p, aterm, pay)] + rest;
      assert TermSchedule(aterm) == [aterm] + TermSchedule(aterm - TermStep);
      forall i | 0 <= i < |rows|
        ensures rows[i].term == TermSchedule(aterm)[i]
        ensures rows[i].monthly == pay(p.balance, p.apr, rows[i].term)
      {
        if i > 0 {
          assert rows[i] == rest[i - 1];
        }
      }
    }
  }

  /** The table for the parameters: rows for (int)term, (int)term - 6, ... */
  lemma ScheduleRowsShape(p: FinanceParams, pay: PaymentFormula)
    ensures var t := TruncateToInt(p.term);
            var rows := Schedule(p, pay);
            |rows| == (if t > 0 then (t + TermStep - 1) / TermStep else 0)
            && forall i :: 0 <= i < |rows| ==>
                 rows[i].term == t - TermStep * i && rows[i].term > 0
                 && rows[i].monthly == pay(p.balance, p.apr, rows[i].term)
                 && rows[i].total == rows[i].monthly * rows[i].term as real
                 && rows[i].interest == rows[i].total - p.balance
  {
    ScheduleFromRows(p, TruncateToInt(p.term), pay);
    TermScheduleShape(TruncateToInt(p.term));
  }

  /** A term below one month gives no rows; in particular the zeroed parameters. */
  lemma NoRowsWithoutTerm(p: FinanceParams, pay: PaymentFormula)
    requires p.term < 1.0
    ensures Schedule(p, pay) == []
  {
  }

  /** The driver's loop: one row per term, stepping down by six while positive. */
  method ScheduleRows(p: FinanceParams, pay: PaymentFormula) returns (rows: seq<PaymentRow>)
    ensures rows == Schedule(p, pay)
  {
    rows := [];
    var aterm := TruncateToInt(p.term);
    while aterm > 0
      invariant rows + ScheduleFrom(p, aterm, pay) == Schedule(p, pay)
      decreases aterm
    {
      var m := MonthlyPayment(p, aterm, pay);
      var tloan := m * aterm as real;
      var idiff := tloan - p.balance;
      assert RowFor(p, aterm, pay) == PaymentRow(tloan, idiff, m, aterm);
      assert ScheduleFrom(p, aterm, pay) == [PaymentRow(tloan, idiff, m, aterm)] + ScheduleFrom(p, aterm - TermStep, pay);
      assert rows + ([PaymentRow(tloan, idiff, m, aterm)] + ScheduleFrom(p, aterm - TermStep, pay))
          == (rows + [PaymentRow(tloan, idiff, m, aterm)]) + ScheduleFrom(p, aterm - TermStep, pay);
      rows := rows + [PaymentRow(tloan, idiff, m, aterm)];
      aterm := aterm - TermStep;
    }
  }

  // ---------------------------------------------------------------------
  // Command-line handling.

  /** The C string a character sequence denotes: everything before the first NUL. */
  function CString(s: string): (c: string)
    ensures |c| <= |s| && c == s[..|c|]
    ensures '\0' !in c
    ensures |c| < |s| ==> s[|c|] == '\0'
  {
    if s == [] || s[0] == '\0' then [] else [s[0]] + CString(s[1..])
  }

  /** The character strcmp reads at position 0: the terminator once s ends. */
  function Head(s: string): char
  {
    if s == [] then '\0' else s[0]
  }

  /** C strcmp: zero when equal, otherwise the difference at the first mismatch. */
  function Strcmp(a: string, b: string): int
    decreases |a|
  {
    if Head(a) != Head(b) then Head(a) as int - Head(b) as int
    else if Head(a) == '\0' then 0
    else Strcmp(a[1..], b[1..])
  }

  /** strcmp reports equality exactly when the two C strings are equal. */
  lemma {:induction false} StrcmpZeroIff(a: string, b: string)
    ensures Strcmp(a, b) == 0 <==> CString(a) == CString(b)
    decreases |a|
  {
    if Head(a) != Head(b) {
      assert CString(a) == [] <==> Head(a) == '\0';
      assert CString(b) == [] <==> Head(b) == '\0';
      assert CString(a) != [] && CString(b) != [] ==> CString(a)[0] == Head(a) && CString(b)[0] == Head(b);
    } else if Head(a) != '\0' {
      StrcmpZeroIff(a[1..], b[1..]);
      assert CString(a) == [a[0]] + CString(a[1..]);
      assert CString(b) == [b[0]] + CString(b[1..]);
      if CString(a) == CString(b) {
        assert CString(a)[1..] == CString(a[1..]);
      }
    }
  }

  /**
   * The help decision: help is shown when no argument is given, or when the
   * first argument is -h or --help.
   */
  function ValidateHelp(args: seq<string>): (help: bool)
    requires |args| >= 1
    ensures help <==> |args| == 1 || CString(args[1]) == "-h" || CString(args[1]) == "--help"
    ensures |args| > 1 && '\0' !in args[1] ==> (help <==> args[1] == "-h" || args[1] == "--help")
  {
    if |args| == 1 then true
    else
      StrcmpZeroIff(args[1], "-h");
      StrcmpZeroIff(args[1], "--help");
      assert CString("-h") == "-h";
      assert CString("--help") == "--help";
      if !(Strcmp(args[1], "-h") == 0 || Strcmp(args[1], "--help") == 0) then false else true
  }

  /** The text-to-number conversion (atof); it reads each argument as a C string. */
  type Parser = string -> real

  /**
   * Reads balance, APR and term from arguments 1 to 3 into the parameters,
   * slot by slot. With fewer than four arguments it fails and writes nothing.
   */
  method ValidateFinanceParameters(p: FinanceParams, args: seq<string>, parse: Parser)
    returns (ok: bool, q: FinanceParams)
    ensures ok <==> |args| >= 4
    ensures !ok ==> q == p
    ensures ok ==> q == FinanceParams(parse(CString(args[1])), parse(CString(args[2])),
                                      parse(CString(args[3])))
  {
    q := p;
    if |args| < 4 {
      return false, q;
    }
    var i := 1;
    while i < 4
      invariant 1 <= i <= 4
      invariant forall j :: 0 <= j < i - 1 ==> Param(q, j) == parse(CString(args[j + 1]))
    {
      q := WithParam(q, i - 1, parse(CString(args[i])));
      i := i + 1;
    }
    assert Param(q, 0) == parse(CString(args[1]));
    assert Param(q, 1) == parse(CString(args[2]));
    assert Param(q, 2) == parse(CString(args[3]));
    ok := true;
  }

  // ---------------------------------------------------------------------
  // The driver.

  /**
   * The decisions of main: stop after the help text, otherwise read the
   * parameters (a failed read leaves them zeroed and the run continues) and
   * emit the payment rows.
   */
  method Run(args: seq<string>, parse: Parser, pay: PaymentFormula)
    returns (help: bool, validated: bool, rows: seq<PaymentRow>)
    requires |args| >= 1
    ensures help <==> |args| == 1 || CString(args[1]) == "-h" || CString(args[1]) == "--help"
    ensures help ==> !validated && rows == []
    ensures !help ==> (validated <==> |args| >= 4)
    ensures !help && !validated ==> rows == []
    ensures !help && validated ==>
              rows == Schedule(FinanceParams(parse(CString(args[1])), parse(CString(args[2])),
                                             parse(CString(args[3]))), pay)
  {
    help := ValidateHelp(args);
    if help {
      return true, false, [];
    }
    var fParams := Zeroed;
    validated, fParams := ValidateFinanceParameters(fParams, args, parse);
    if !validated {
      NoRowsWithoutTerm(fParams, pay);
    }
    rows := ScheduleRows(fParams, pay);
  }
}
