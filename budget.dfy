/** The monthly budget calculator: take-home income split into needs, wants
    and savings by three percentages the user chooses. */
module Budget {

  /** The three amounts the calculator shows. */
  datatype Split = Split(needs: real, wants: real, savings: real)

  /** Each bucket receives income times its percentage (60 means 60%); the
      three buckets together receive income times the percentages' sum. */
  function Allocate(income: real, needsPercent: real, wantsPercent: real, savingsPercent: real): (s: Split)
    ensures s.needs == income * (needsPercent / 100.0)
    ensures s.wants == income * (wantsPercent / 100.0)
    ensures s.savings == income * (savingsPercent / 100.0)
    ensures s.needs + s.wants + s.savings
            == income * ((needsPercent + wantsPercent + savingsPercent) / 100.0)
  {
    Split(income * (needsPercent / 100.0), income * (wantsPercent / 100.0),
          income * (savingsPercent / 100.0))
  }

  /** Percentages that add up to 100 allocate exactly the whole income. */
  lemma WholeIncomeAllocated(income: real, needsPercent: real, wantsPercent: real, savingsPercent: real)
    requires needsPercent + wantsPercent + savingsPercent == 100.0
    ensures var s := Allocate(income, needsPercent, wantsPercent, savingsPercent);
            s.needs + s.wants + s.savings == income
  {
  }

  /** One bar of the budget chart. */
  datatype Slice = Slice(name: string, value: real)

  /** The sum of the bar values of a chart. */
  function Total(c: seq<Slice>): real
  {
    if c == [] then 0.0 else c[0].value + Total(c[1..])
  }

  /** The chart data: one bar per bucket, named in the order needs, wants,
      savings, whose values add up to the whole split. */
  function Chart(s: Split): (c: seq<Slice>)
    ensures |c| == 3
    ensures c[0].name == "Needs" && c[1].name == "Wants" && c[2].name == "Savings"
    ensures Total(c) == s.needs + s.wants + s.savings
  {
    var c := [Slice("Needs", s.needs), Slice("Wants", s.wants), Slice("Savings", s.savings)];
    assert Total(c[2..]) == s.savings by { assert c[2..][1..] == []; }
    assert Total(c[1..]) == s.wants + Total(c[2..]) by { assert c[1..][1..] == c[2..]; }
    c
  }

  /** The chart of an allocation: each bar is income times its percentage, and
      the bars together show income times the percentages' sum, which is the
      whole income when the percentages add up to 100. */
  lemma ChartOfAllocation(income: real, needsPercent: real, wantsPercent: real, savingsPercent: real)
    ensures var c := Chart(Allocate(income, needsPercent, wantsPercent, savingsPercent));
      && c[0].value == income * (needsPercent / 100.0)
      && c[1].value == income * (wantsPercent / 100.0)
      && c[2].value == income * (savingsPercent / 100.0)
      && Total(c) == income * ((needsPercent + wantsPercent + savingsPercent) / 100.0)
      && (needsPercent + wantsPercent + savingsPercent == 100.0 ==> Total(c) == income)
  {
  }
}
