/** The analytics bulk insert: one SQL statement whose text, read back, means exactly the batch. */
module BulkInsert {
  import opened Options
  import opened Decimal

  datatype ClickEvent = ClickEvent(shortCode: string, clickedAt: int, ip: string, referer: string)

  /** A value handed to the driver beside the statement text. */
  datatype Arg = Text(text: string) | Instant(time: int)

  datatype Statement = Statement(query: string, args: seq<Arg>)

  const COLUMNS := ["short_code", "clicked_at", "ip", "referer"]

  const INSERT := "INSERT INTO analytics (" + Join(COLUMNS, ", ") + ") VALUES "

  /** What belongs into the column of this name. */
  function Column(e: ClickEvent, name: string): Arg {
    match name
    case "short_code" => Text(e.shortCode)
    case "clicked_at" => Instant(e.clickedAt)
    case "ip" => Text(e.ip)
    case "referer" => Text(e.referer)
    case _ => Text("")
  }

  function Fields(e: ClickEvent): (r: seq<Arg>)
    ensures |r| == 4
  {
    [Text(e.shortCode), Instant(e.clickedAt), Text(e.ip), Text(e.referer)]
  }

  function BatchRows(events: seq<ClickEvent>): (rows: seq<seq<Arg>>)
    ensures |rows| == |events|
  {
    seq(|events|, i requires 0 <= i < |events| => Fields(events[i]))
  }

  // ---------------------------------------------------------------- reading a statement

  /** The length of the run of digits at the start of `s`. */
  function DigitRun(s: string): (n: nat)
    ensures n <= |s| && AllDigits(s[..n])
    ensures n < |s| ==> !IsDigit(s[n])
  {
    if s == [] || !IsDigit(s[0]) then 0 else
      var n := 1 + DigitRun(s[1..]);
      assert forall i :: 1 <= i < n ==> s[i] == s[1..][i - 1];
      n
  }

  /** `$7,$8)...`: the parameter numbers of one tuple, and the text after it. */
  function ReadParams(s: string): (r: Option<(seq<nat>, string)>)
    ensures r.Some? ==> |r.value.1| < |s|
    decreases |s|
  {
    if s == [] || s[0] != '$' then None else
      var n := DigitRun(s[1..]);
      var rest := s[1..][n..];
      if n == 0 || rest == [] then None else
        var number := Atoi(s[1..][..n]);
        if rest[0] == ')' then Some(([number], rest[1..]))
        else if rest[0] != ',' then None else
          match ReadParams(rest[1..])
          case None => None
          case Some((numbers, after)) => Some(([number] + numbers, after))
  }

  /** `(...), (...)`: every tuple of a VALUES list. */
  function ReadTuples(s: string): Option<seq<seq<nat>>>
    decreases |s|
  {
    if s == [] || s[0] != '(' then None else
      match ReadParams(s[1..])
      case None => None
      case Some((numbers, rest)) =>
        if rest == [] then Some([numbers])
        else if |rest| < 2 || rest[..2] != ", " then None else
          match ReadTuples(rest[2..])
          case None => None
          case Some(more) => Some([numbers] + more)
  }

  /** `$k` stands for the k-th argument, counted from 1. */
  predicate InRange(numbers: seq<nat>, args: seq<Arg>) {
    forall i :: 0 <= i < |numbers| ==> 1 <= numbers[i] <= |args|
  }

  function Substitute(numbers: seq<nat>, args: seq<Arg>): seq<Arg>
    requires InRange(numbers, args)
  {
    seq(|numbers|, i requires 0 <= i < |numbers| => args[numbers[i] - 1])
  }

  /** The rows of a VALUES list. */
  function ValueRows(values: string, args: seq<Arg>): Option<seq<seq<Arg>>> {
    match ReadTuples(values)
    case None => None
    case Some(tuples) =>
      if forall i :: 0 <= i < |tuples| ==> InRange(tuples[i], args)
      then Some(SubstituteAll(tuples, args))
      else None
  }

  function SubstituteAll(tuples: seq<seq<nat>>, args: seq<Arg>): (rows: seq<seq<Arg>>)
    requires forall i :: 0 <= i < |tuples| ==> InRange(tuples[i], args)
    ensures |rows| == |tuples|
    ensures forall i :: 0 <= i < |rows| ==> rows[i] == Substitute(tuples[i], args)
  {
    seq(|tuples|, i requires 0 <= i < |tuples| => Substitute(tuples[i], args))
  }

  /** The rows a statement inserts, read off its text. */
  function Rows(verb: string, st: Statement): Option<seq<seq<Arg>>> {
    if |st.query| < |verb| || st.query[..|verb|] != verb then None
    else ValueRows(st.query[|verb|..], st.args)
  }

  // ---------------------------------------------------------------- building a statement

  function Param(n: nat): string {
    "$" + Itoa(n)
  }

  /** The parameters of a tuple, its closing bracket, and `rest`. */
  function ParamText(numbers: seq<nat>, rest: string): string
    requires numbers != []
    decreases |numbers|
  {
    if |numbers| == 1 then Param(numbers[0]) + (")" + rest)
    else Param(numbers[0]) + ("," + ParamText(numbers[1..], rest))
  }

  function Numbers(base: nat): (ns: seq<nat>)
    ensures |ns| == 4
  {
    [base + 1, base + 2, base + 3, base + 4]
  }

  /** One row of placeholders: the four parameters after `base`, in parentheses. */
  function Tuple(base: nat): string {
    "(" + ParamText(Numbers(base), "")
  }

  function Placeholders(n: nat): (ps: seq<string>)
    ensures |ps| == n
  {
    seq(n, i requires 0 <= i < n => Tuple(i * 4))
  }

  /** strings.Join */
  function Join(parts: seq<string>, separator: string): string {
    if parts == [] then ""
    else if |parts| == 1 then parts[0]
    else parts[0] + separator + Join(parts[1..], separator)
  }

  function AllFields(events: seq<ClickEvent>): (args: seq<Arg>)
    ensures |args| == 4 * |events|
  {
    if events == [] then [] else AllFields(events[..|events| - 1]) + Fields(events[|events| - 1])
  }

  /** BulkInsert up to the Exec call; an empty batch runs no statement. The text it builds, read back
      by the grammar above, inserts exactly the batch's rows in order. */
  method Build(events: seq<ClickEvent>) returns (st: Option<Statement>)
    ensures events == [] <==> st == None
    ensures events != [] ==>
              Rows(INSERT, st.value) == Some(BatchRows(events))
    ensures events != [] ==> exists values: string, rows: seq<seq<Arg>> ::
              && st.value.query == "INSERT INTO analytics (" + Join(COLUMNS, ", ") + ") VALUES " + values
              && ValueRows(values, st.value.args) == Some(rows) && Filled(rows, events)
  {
    if |events| == 0 {
      return None;
    }
    var placeholders, args := Fill(events);
    st := Some(Statement(INSERT + Join(placeholders[..], ", "), args));
    BatchMeaning(INSERT, events);
    ValuesMeaning(events);
    RowsFilled(events);
  }

  /** The text itself, for one row. */
  lemma {:induction false} FirstTuple()
    ensures Join(Placeholders(1), ", ") == "($1,$2,$3,$4)"
  {
    assert Numbers(0)[1..][1..] == [3, 4] && Numbers(0)[1..] == [2, 3, 4] && [3, 4][1..] == [4];
    assert Itoa(1) == "1" && Itoa(2) == "2" && Itoa(3) == "3" && Itoa(4) == "4";
    assert ParamText([4], "") == "$4)";
    assert ParamText([3, 4], "") == "$3,$4)";
    assert ParamText([2, 3, 4], "") == "$2,$3,$4)";
    assert ParamText([1, 2, 3, 4], "") == "$1,$2,$3,$4)";
  }

  /** One row for each event, and in it, under the name of each column, what belongs there. */
  predicate Filled(rows: seq<seq<Arg>>, events: seq<ClickEvent>) {
    |rows| == |events| && forall i :: 0 <= i < |rows| ==> RowFilled(rows[i], events[i])
  }

  predicate RowFilled(row: seq<Arg>, e: ClickEvent) {
    |row| == |COLUMNS| && forall j :: 0 <= j < |row| ==> row[j] == Column(e, COLUMNS[j])
  }

  lemma {:induction false} RowsFilled(events: seq<ClickEvent>)
    ensures Filled(BatchRows(events), events)
  {
    forall i | 0 <= i < |events|
      ensures RowFilled(BatchRows(events)[i], events[i])
    {
    }
  }

  /** The loop of BulkInsert: it fills the placeholder slice and appends the arguments. */
  method Fill(events: seq<ClickEvent>) returns (placeholders: array<string>, args: seq<Arg>)
    ensures fresh(placeholders) && placeholders[..] == Placeholders(|events|)
    ensures args == AllFields(events)
  {
    placeholders := new string[|events|];
    args := [];
    for i := 0 to |events|
      invariant forall j :: 0 <= j < i ==> placeholders[j] == Tuple(j * 4)
      invariant args == AllFields(events[..i])
    {
      var e := events[i];
      placeholders[i] := Tuple(i * 4);
      args := args + [Text(e.shortCode), Instant(e.clickedAt), Text(e.ip), Text(e.referer)];
      assert events[..i + 1][..i] == events[..i];
    }
    assert events[..|events|] == events;
  }

  // ---------------------------------------------------------------- the two agree

  lemma {:induction false} DigitRunStops(digits: string, rest: string)
    requires AllDigits(digits) && rest != [] && !IsDigit(rest[0])
    ensures DigitRun(digits + rest) == |digits|
  {
    if digits != [] {
      assert (digits + rest)[1..] == digits[1..] + rest;
      DigitRunStops(digits[1..], rest);
    } else {
      assert digits + rest == rest;
    }
  }

  lemma Split(a: string, b: string)
    ensures (a + b)[..|a|] == a && (a + b)[|a|..] == b
  {
  }

  lemma Assoc(a: string, b: string, c: string)
    ensures a + b + c == a + (b + c)
  {
  }

  lemma ReadDigits(s: string, number: nat, tail: string)
    requires s == Param(number) + tail
    requires tail != [] && !IsDigit(tail[0])
    ensures s != [] && s[0] == '$' && DigitRun(s[1..]) == |Itoa(number)| > 0
    ensures s[1..][..|Itoa(number)|] == Itoa(number) && s[1..][|Itoa(number)|..] == tail
    ensures Atoi(Itoa(number)) == number
  {
    assert s[1..] == Itoa(number) + tail;
    Split(Itoa(number), tail);
    DigitRunStops(Itoa(number), tail);
    AtoiItoa(number);
  }

  lemma ReadLastParam(s: string, number: nat, tail: string)
    requires s == Param(number) + tail && tail != [] && tail[0] == ')'
    ensures ReadParams(s) == Some(([number], tail[1..]))
  {
    ReadDigits(s, number, tail);
  }

  lemma ReadNextParam(s: string, number: nat, tail: string, numbers: seq<nat>, after: string)
    requires s == Param(number) + tail && tail != [] && tail[0] == ','
    requires ReadParams(tail[1..]) == Some((numbers, after))
    ensures ReadParams(s) == Some(([number] + numbers, after))
  {
    ReadDigits(s, number, tail);
  }

  lemma {:induction false} ReadParamText(numbers: seq<nat>, rest: string)
    requires numbers != []
    ensures ReadParams(ParamText(numbers, rest)) == Some((numbers, rest))
    decreases |numbers|
  {
    if |numbers| == 1 {
      ReadClosingParam(ParamText(numbers, rest), numbers[0], rest);
      assert numbers == [numbers[0]];
    } else {
      ReadParamText(numbers[1..], rest);
      ReadCommaParam(ParamText(numbers, rest), numbers[0], ParamText(numbers[1..], rest), numbers[1..], rest);
      assert numbers == [numbers[0]] + numbers[1..];
    }
  }

  lemma ReadClosingParam(s: string, number: nat, rest: string)
    requires s == Param(number) + (")" + rest)
    ensures ReadParams(s) == Some(([number], rest))
  {
    Split(")", rest);
    ReadLastParam(s, number, ")" + rest);
  }

  lemma ReadCommaParam(s: string, number: nat, next: string, numbers: seq<nat>, after: string)
    requires s == Param(number) + ("," + next)
    requires ReadParams(next) == Some((numbers, after))
    ensures ReadParams(s) == Some(([number] + numbers, after))
  {
    Split(",", next);
    ReadNextParam(s, number, "," + next, numbers, after);
  }

  /** Text appended to a tuple ends up behind its closing bracket. */
  lemma {:induction false} ParamTextAppend(numbers: seq<nat>, rest: string)
    requires numbers != []
    ensures ParamText(numbers, "") + rest == ParamText(numbers, rest)
    decreases |numbers|
  {
    var first := Param(numbers[0]);
    if |numbers| == 1 {
      Assoc(first, ")" + "", rest);
      assert ")" + "" + rest == ")" + rest;
    } else {
      ParamTextAppend(numbers[1..], rest);
      Assoc(first, "," + ParamText(numbers[1..], ""), rest);
      Assoc(",", ParamText(numbers[1..], ""), rest);
    }
  }

  lemma ReadFirstTuple(s: string, base: nat, rest: string)
    requires s == Tuple(base) + rest
    ensures s != [] && s[0] == '(' && ReadParams(s[1..]) == Some((Numbers(base), rest))
  {
    Assoc("(", ParamText(Numbers(base), ""), rest);
    ParamTextAppend(Numbers(base), rest);
    Split("(", ParamText(Numbers(base), rest));
    ReadParamText(Numbers(base), rest);
  }

  lemma ReadLastTuple(s: string, base: nat)
    requires s == Tuple(base)
    ensures ReadTuples(s) == Some([Numbers(base)])
  {
    assert s == s + "";
    ReadFirstTuple(s, base, "");
  }

  lemma ReadNextTuple(s: string, base: nat, more: string, tuples: seq<seq<nat>>)
    requires s == Tuple(base) + ", " + more
    requires ReadTuples(more) == Some(tuples)
    ensures ReadTuples(s) == Some([Numbers(base)] + tuples)
  {
    Assoc(Tuple(base), ", ", more);
    ReadFirstTuple(s, base, ", " + more);
    Split(", ", more);
  }

  function AllNumbers(bases: seq<nat>): (tuples: seq<seq<nat>>)
    ensures |tuples| == |bases|
    ensures forall i :: 0 <= i < |bases| ==> tuples[i] == Numbers(bases[i])
  {
    if bases == [] then [] else [Numbers(bases[0])] + AllNumbers(bases[1..])
  }

  lemma {:induction false} ReadTuplesJoin(parts: seq<string>, bases: seq<nat>)
    requires |parts| == |bases| > 0
    requires forall i :: 0 <= i < |parts| ==> parts[i] == Tuple(bases[i])
    ensures ReadTuples(Join(parts, ", ")) == Some(AllNumbers(bases))
    decreases |parts|
  {
    if |parts| == 1 {
      ReadLastTuple(parts[0], bases[0]);
      assert AllNumbers(bases) == [Numbers(bases[0])];
    } else {
      ReadTuplesJoin(parts[1..], bases[1..]);
      ReadNextTuple(Join(parts, ", "), bases[0], Join(parts[1..], ", "), AllNumbers(bases[1..]));
    }
  }

  lemma {:induction false} FieldsAt(events: seq<ClickEvent>, i: nat, j: nat)
    requires i < |events| && j < 4
    ensures AllFields(events)[4 * i + j] == Fields(events[i])[j]
    decreases |events|
  {
    if i < |events| - 1 {
      FieldsAt(events[..|events| - 1], i, j);
    }
  }

  function Bases(n: nat): (bases: seq<nat>)
    ensures |bases| == n
    ensures forall i :: 0 <= i < n ==> bases[i] == 4 * i
  {
    seq(n, i requires 0 <= i < n => i * 4)
  }

  lemma TextReadsBack(n: nat)
    requires n > 0
    ensures ReadTuples(Join(Placeholders(n), ", ")) == Some(AllNumbers(Bases(n)))
  {
    ReadTuplesJoin(Placeholders(n), Bases(n));
  }

  lemma {:induction false} RowMeaning(events: seq<ClickEvent>, i: nat)
    requires i < |events|
    ensures InRange(Numbers(i * 4), AllFields(events))
    ensures Substitute(Numbers(i * 4), AllFields(events)) == Fields(events[i])
  {
    var args := AllFields(events);
    forall j: nat | j < 4
      ensures args[4 * i + j] == Fields(events[i])[j]
    {
      FieldsAt(events, i, j);
    }
    assert Substitute(Numbers(i * 4), args) == Fields(events[i]);
  }

  lemma {:induction false} AllRowsMeaning(events: seq<ClickEvent>)
    ensures forall i :: 0 <= i < |events| ==> InRange(AllNumbers(Bases(|events|))[i], AllFields(events))
    ensures SubstituteAll(AllNumbers(Bases(|events|)), AllFields(events)) == BatchRows(events)
  {
    forall i: nat | i < |events|
      ensures InRange(AllNumbers(Bases(|events|))[i], AllFields(events))
      ensures Substitute(AllNumbers(Bases(|events|))[i], AllFields(events)) == Fields(events[i])
    {
      RowMeaning(events, i);
    }
  }

  lemma {:induction false} ValuesMeaning(events: seq<ClickEvent>)
    requires events != []
    ensures ValueRows(Join(Placeholders(|events|), ", "), AllFields(events)) == Some(BatchRows(events))
  {
    var n := |events|;
    TextReadsBack(n);
    AllRowsMeaning(events);
  }

  lemma BatchMeaning(verb: string, events: seq<ClickEvent>)
    requires events != []
    ensures Rows(verb, Statement(verb + Join(Placeholders(|events|), ", "), AllFields(events))) ==
            Some(BatchRows(events))
  {
    Split(verb, Join(Placeholders(|events|), ", "));
    ValuesMeaning(events);
  }

  /** The statement for n events uses the parameters $1 to $4n once each, in order. */
  lemma {:induction false} ParametersInOrder(n: nat) returns (tuples: seq<seq<nat>>)
    requires n > 0
    ensures ReadTuples(Join(Placeholders(n), ", ")) == Some(tuples) && |tuples| == n
    ensures forall i :: 0 <= i < n ==> tuples[i] == [4 * i + 1, 4 * i + 2, 4 * i + 3, 4 * i + 4]
  {
    TextReadsBack(n);
    tuples := AllNumbers(Bases(n));
    forall i | 0 <= i < n
      ensures tuples[i] == [4 * i + 1, 4 * i + 2, 4 * i + 3, 4 * i + 4]
    {
      assert tuples[i] == Numbers(4 * i);
    }
  }
}
