/** The new-transaction form: its fields, the income/expense switch that keeps
    the category consistent, and the submit handler that builds the
    transaction. */
module Form {
  import opened Optional
  import opened Text
  import opened Calendar
  import opened Types

  /** The form's fields. `amount` and `date` are the raw texts of their
      inputs; `member` is the selected family member ("" for none). */
  datatype FormState = FormState(
    kind: TxType,
    amount: string,
    category: Category,
    description: string,
    company: string,
    date: string,
    member: string)

  const IncomeCategories: seq<Category> := [Salario, Negocio, OtrosIngresos]

  const ExpenseCategories: seq<Category> :=
    [Vivienda, Transporte, Servicios, Alimentos, Transferencias, Diezmos, OtrosGastos]

  /** The category select's options for the current kind. */
  function CategoryOptions(k: TxType): (r: seq<Category>)
    ensures r == IncomeCategories || r == ExpenseCategories
    ensures Salario in r <==> k == Income
  {
    if k == Income then IncomeCategories else ExpenseCategories
  }

  /** The two lists share no category and together hold all ten; each kind's
      default category is on its own list. */
  lemma CategoryListsPartition()
    ensures forall c :: !(c in IncomeCategories && c in ExpenseCategories)
    ensures forall c :: c in IncomeCategories || c in ExpenseCategories
    ensures Salario in IncomeCategories && Alimentos in ExpenseCategories
  {
    forall c ensures c in IncomeCategories || c in ExpenseCategories {
      match c
      case Salario => assert IncomeCategories[0] == c;
      case Negocio => assert IncomeCategories[1] == c;
      case OtrosIngresos => assert IncomeCategories[2] == c;
      case Vivienda => assert ExpenseCategories[0] == c;
      case Transporte => assert ExpenseCategories[1] == c;
      case Servicios => assert ExpenseCategories[2] == c;
      case Alimentos => assert ExpenseCategories[3] == c;
      case Transferencias => assert ExpenseCategories[4] == c;
      case Diezmos => assert ExpenseCategories[5] == c;
      case OtrosGastos => assert ExpenseCategories[6] == c;
    }
  }

  /** The form as it opens: an expense of food, dated `today`, with no
      member chosen yet. */
  function InitialForm(today: string): (r: FormState)
    ensures r.kind == Expense && r.category == Alimentos && r.date == today
    ensures r.amount == "" && r.description == "" && r.company == "" && r.member == ""
  {
    FormState(Expense, "", Alimentos, "", "", today, "")
  }

  /** The effect that picks the first family member while none is chosen. */
  function AutoSelectMember(st: FormState, members: seq<string>): (r: FormState)
    ensures |members| > 0 && st.member == "" ==> r == st.(member := members[0])
    ensures !(|members| > 0 && st.member == "") ==> r == st
  {
    if |members| > 0 && st.member == "" then st.(member := members[0]) else st
  }

  /** The income and expense buttons: switching kind resets the category to
      that kind's default. */
  function SetKind(st: FormState, k: TxType): (r: FormState)
    ensures r.kind == k
    ensures r.category == (if k == Income then Salario else Alimentos)
    ensures r.category in CategoryOptions(k)
    ensures r == st.(kind := k, category := r.category)
  {
    st.(kind := k, category := if k == Income then Salario else Alimentos)
  }

  /** The category of the form belongs to the list shown for its kind. */
  predicate Consistent(st: FormState) {
    st.category in CategoryOptions(st.kind)
  }

  /** What the user can do on the form. Selects can only produce one of
      their options, so they are given by option position. */
  datatype Event =
    | PressKind(kind: TxType)
    | PickCategory(index: int)
    | PickMember(index: int)
    | TypeAmount(amount: string)
    | TypeDescription(description: string)
    | TypeCompany(company: string)
    | TypeDate(date: string)

  function Apply(st: FormState, members: seq<string>, e: Event): FormState {
    match e
    case PressKind(k) => SetKind(st, k)
    case PickCategory(i) =>
      var options := CategoryOptions(st.kind);
      if 0 <= i < |options| then st.(category := options[i]) else st
    case PickMember(i) => if 0 <= i < |members| then st.(member := members[i]) else st
    case TypeAmount(a) => st.(amount := a)
    case TypeDescription(d) => st.(description := d)
    case TypeCompany(c) => st.(company := c)
    case TypeDate(d) => st.(date := d)
  }

  /** The form after the events `es`, the last one latest, for a family
      with `members`. */
  function Run(today: string, members: seq<string>, es: seq<Event>): FormState
    decreases |es|
  {
    if es == [] then AutoSelectMember(InitialForm(today), members)
    else Apply(Run(today, members, es[..|es| - 1]), members, es[|es| - 1])
  }

  lemma ApplyKeepsConsistent(st: FormState, members: seq<string>, e: Event)
    requires Consistent(st)
    ensures Consistent(Apply(st, members, e))
  {
  }

  /** Whatever the user does, the category is one the select offers for
      the current kind. */
  lemma {:induction false} RunConsistent(today: string, members: seq<string>, es: seq<Event>)
    ensures Consistent(Run(today, members, es))
    decreases |es|
  {
    if es == [] {
      assert ExpenseCategories[3] == Alimentos;
    } else {
      RunConsistent(today, members, es[..|es| - 1]);
      ApplyKeepsConsistent(Run(today, members, es[..|es| - 1]), members, es[|es| - 1]);
    }
  }

  /** The selected member is always one of the family's: with no members
      none is selected, and otherwise the first is preselected and the
      select only offers the others. */
  lemma {:induction false} RunMemberOfFamily(today: string, members: seq<string>, es: seq<Event>)
    ensures members == [] ==> Run(today, members, es).member == ""
    ensures members != [] ==> Run(today, members, es).member in members
    decreases |es|
  {
    if es != [] {
      RunMemberOfFamily(today, members, es[..|es| - 1]);
    }
  }

  /** A transaction submitted from any reachable form is created by a
      family member. */
  lemma SubmittedByMember(today: string, members: seq<string>, es: seq<Event>,
                          parsedAmount: real, id: string, now: DateTime)
    requires ValidDateTime(now)
    ensures var r := Submit(Run(today, members, es), parsedAmount, id, now);
      r.1.Some? ==> r.1.value.createdBy in members
  {
    RunMemberOfFamily(today, members, es);
  }

  /** `new Date(year, month - 1, day, ...)` as JavaScript evaluates it: a
      year from 0 to 99 is read as 1900 plus that year. */
  function LocalDateAsWritten(year: nat, month: nat, day: nat): (r: Date)
    ensures 0 <= year <= 99 ==> r.year == 1900 + year
    ensures year > 99 ==> r.year == year
    ensures r.month == month && r.day == day
  {
    Date(if year <= 99 then 1900 + year else year, month, day)
  }

  /** The date input's text "0050-03-15" names 15 March of year 50, but the
      as-written construction files it under 1950. */
  lemma TwoDigitYearShifts()
    ensures ParseYMD("0050-03-15") == Some(Date(50, 3, 15))
    ensures LocalDateAsWritten(50, 3, 15) == Date(1950, 3, 15)
    ensures LocalDateAsWritten(50, 3, 15) != Date(50, 3, 15)
  {
    ParseFormatPadded();
  }

  lemma ParseFormatPadded()
    ensures ParseYMD("0050-03-15") == Some(Date(50, 3, 15))
  {
    SplitPadded();
    ReadPadded();
  }

  lemma SplitPadded()
    ensures Split("0050-03-15", '-') == ["0050", "03", "15"]
  {
    SplitMonthDay();
    SplitAtSeparator("0050", "03-15", '-');
    assert "0050-03-15" == "0050" + ['-'] + "03-15";
  }

  lemma SplitMonthDay()
    ensures Split("03-15", '-') == ["03", "15"]
  {
    SplitAtSeparator("03", "15", '-');
    SplitNoSeparator("15", '-');
    assert "03-15" == "03" + ['-'] + "15";
  }

  lemma ReadPadded()
    ensures IsDigits("0050") && ParseDigits("0050") == 50
    ensures IsDigits("03") && ParseDigits("03") == 3
    ensures IsDigits("15") && ParseDigits("15") == 15
  {
    assert NatToString(50) == "50" && NatToString(3) == "3" && NatToString(15) == "15";
    ParseLeadingZeros(2, "50");
    assert "0050" == seq(2, _ => '0') + "50";
    ParseLeadingZeros(1, "3");
    assert "03" == seq(1, _ => '0') + "3";
  }

  /** The local calendar day the submit handler intends: the year, month and
      day read from the date input, whatever the year. */
  function LocalDate(year: nat, month: nat, day: nat): (r: Date)
    ensures r.year == year && r.month == month && r.day == day
    ensures year > 99 ==> r == LocalDateAsWritten(year, month, day)
  {
    Date(year, month, day)
  }

  /** The last step of the submit handler once the day is built: a day that
      does not exist gives nothing; otherwise the transaction is made from the
      form and `day`, and the amount, description and company are cleared. */
  function Commit(st: FormState, day: Date, parsedAmount: real, id: string, now: DateTime): (FormState, Option<Transaction>) {
    if !ValidDate(day) then (st, None)
    else
      var t := Transaction(id, DateTime(day, now.seconds), parsedAmount, st.category,
                           st.description, st.kind, st.member, st.company);
      (st.(amount := "", description := "", company := ""), Some(t))
  }

  /** Submitting the form. `parsedAmount` stands for `parseFloat` of the
      amount text, `id` for the generated id and `now` for the clock. Nothing
      happens without an amount text or a member, or when the date text is not
      a real day (the handler throws building it). Otherwise the transaction
      takes its kind, category, texts and member from the form, its day from
      the date text and its time of day from `now`; the amount, description
      and company are then cleared and everything else kept. The day is built
      with the corrected `LocalDate`. */
  function Submit(st: FormState, parsedAmount: real, id: string, now: DateTime): (r: (FormState, Option<Transaction>))
    requires ValidDateTime(now)
    ensures st.amount == "" || st.member == "" ==> r == (st, None)
    ensures r.1.None? ==> r.0 == st
    ensures r.1.Some? <==>
      && st.amount != "" && st.member != ""
      && ParseYMD(st.date).Some? && ValidDate(ParseYMD(st.date).value)
    ensures r.1.Some? ==>
      var t := r.1.value;
      && t.id == id && t.amount == parsedAmount
      && t.kind == st.kind && t.category == st.category
      && t.description == st.description && t.company == st.company
      && t.createdBy == st.member
      && t.date == DateTime(ParseYMD(st.date).value, now.seconds)
      && ValidDateTime(t.date)
    ensures r.1.Some? ==> r.0 == st.(amount := "", description := "", company := "")
  {
    if st.amount == "" || st.member == "" then (st, None)
    else
      match ParseYMD(st.date)
      case None => (st, None)
      case Some(d) => Commit(st, LocalDate(d.year, d.month, d.day), parsedAmount, id, now)
  }

  /** The submit handler as the code builds the day: through
      `LocalDateAsWritten`, so a year from 0 to 99 lands 1900 years later. */
  function SubmitAsWritten(st: FormState, parsedAmount: real, id: string, now: DateTime): (r: (FormState, Option<Transaction>))
    requires ValidDateTime(now)
    ensures st.amount == "" || st.member == "" || ParseYMD(st.date).None? ==> r == (st, None)
    ensures r.1.Some? ==>
      && ParseYMD(st.date).Some?
      && var d := ParseYMD(st.date).value;
      && r.1.value.date == DateTime(LocalDateAsWritten(d.year, d.month, d.day), now.seconds)
      && ValidDateTime(r.1.value.date)
  {
    if st.amount == "" || st.member == "" then (st, None)
    else
      match ParseYMD(st.date)
      case None => (st, None)
      case Some(d) => Commit(st, LocalDateAsWritten(d.year, d.month, d.day), parsedAmount, id, now)
  }

  /** For years above 99 the code and the corrected handler agree. */
  lemma SubmitAsWrittenAgrees(st: FormState, parsedAmount: real, id: string, now: DateTime)
    requires ValidDateTime(now)
    requires ParseYMD(st.date).Some? && ParseYMD(st.date).value.year > 99
    ensures SubmitAsWritten(st, parsedAmount, id, now) == Submit(st, parsedAmount, id, now)
  {
  }

  /** A submitted transaction lands on the day the date input names, whatever
      its year, and submitting keeps the form consistent. */
  lemma SubmitKeepsDay(st: FormState, parsedAmount: real, id: string, now: DateTime, d: Date)
    requires ValidDateTime(now)
    requires ParseYMD(st.date) == Some(d) && ValidDate(d)
    requires st.amount != "" && st.member != ""
    ensures var r := Submit(st, parsedAmount, id, now);
      && r.1.Some?
      && r.1.value.date.date == d
      && (Consistent(st) ==> Consistent(r.0))
  {
  }

  /** When the date text is the day key of `d`, the submitted transaction's
      key is that same text. */
  lemma SubmitKeepsKey(st: FormState, parsedAmount: real, id: string, now: DateTime, d: Date)
    requires ValidDateTime(now)
    requires ValidDate(d) && st.date == FormatYMD(d)
    requires st.amount != "" && st.member != ""
    ensures var r := Submit(st, parsedAmount, id, now);
      r.1.Some? && FormatYMD(r.1.value.date.date) == st.date
  {
    ParseFormat(d);
    SubmitKeepsDay(st, parsedAmount, id, now, d);
  }

  /** The code's submit lands on the day `LocalDateAsWritten` builds from the
      date text, whenever that is a real day. */
  lemma SubmitAsWrittenDay(st: FormState, parsedAmount: real, id: string, now: DateTime, d: Date)
    requires ValidDateTime(now)
    requires ParseYMD(st.date) == Some(d) && ValidDate(LocalDateAsWritten(d.year, d.month, d.day))
    requires st.amount != "" && st.member != ""
    ensures var r := SubmitAsWritten(st, parsedAmount, id, now);
      r.1.Some? && r.1.value.date.date == LocalDateAsWritten(d.year, d.month, d.day)
  {
  }

  lemma PaddedDaysValid()
    ensures ValidDate(Date(50, 3, 15)) && ValidDate(Date(1950, 3, 15))
    ensures LocalDateAsWritten(50, 3, 15) == Date(1950, 3, 15)
  {
  }

  /** The date input's "0050-03-15": the corrected handler files it on
      15 March 50, the code on 15 March 1950. */
  lemma SubmitPaddedYear(st: FormState, parsedAmount: real, id: string, now: DateTime)
    requires ValidDateTime(now)
    requires st.date == "0050-03-15" && st.amount != "" && st.member != ""
    ensures Submit(st, parsedAmount, id, now).1.Some?
    ensures Submit(st, parsedAmount, id, now).1.value.date.date == Date(50, 3, 15)
    ensures SubmitAsWritten(st, parsedAmount, id, now).1.Some?
    ensures SubmitAsWritten(st, parsedAmount, id, now).1.value.date.date == Date(1950, 3, 15)
  {
    var d := Date(50, 3, 15);
    ParseFormatPadded();
    PaddedDaysValid();
    SubmitKeepsDay(st, parsedAmount, id, now, d);
    SubmitAsWrittenDay(st, parsedAmount, id, now, d);
  }
}
