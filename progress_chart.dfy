/** The status tally behind the doughnut chart
    (src/components/ProgressChart.js): counting records per `status`, the
    three chart values in their fixed order, and the tooltip text. */
module ProgressChart {
  import opened Wrappers
  import JsString

  /** A record as the chart sees it; only `status` is read. */
  datatype Task = Task(id: int, title: string, status: string)

  /** The slice labels and the statuses they stand for, in chart order. */
  const Labels: seq<string> := ["Pending", "In Progress", "Completed"]
  const Statuses: seq<string> := ["pending", "in_progress", "completed"]

  predicate IsCharted(status: string) {
    status == "pending" || status == "in_progress" || status == "completed"
  }

  /** The number of records whose status is `status` (the reference the
      fold is proved against). */
  function Count(todos: seq<Task>, status: string): (n: nat)
    ensures n <= |todos|
  {
    if todos == [] then 0
    else (if todos[0].status == status then 1 else 0) + Count(todos[1..], status)
  }

  /** The number of records whose status is none of the three charted ones. */
  function CountUncharted(todos: seq<Task>): (n: nat)
    ensures n <= |todos|
  {
    if todos == [] then 0
    else (if IsCharted(todos[0].status) then 0 else 1) + CountUncharted(todos[1..])
  }

  /** `m[key] || 0` on the accumulator, whose entries are never 0. */
  function Lookup(m: map<string, nat>, key: string): nat {
    if key in m then m[key] else 0
  }

  /** One step of the reduce, `acc[s] = (acc[s] || 0) + 1`: the key `status`
      goes up by one and is now present; every other key is untouched. */
  function Bump(acc: map<string, nat>, status: string): (r: map<string, nat>)
    ensures r.Keys == acc.Keys + {status}
    ensures Lookup(r, status) == Lookup(acc, status) + 1
    ensures forall other | other != status :: Lookup(r, other) == Lookup(acc, other)
  {
    acc[status := Lookup(acc, status) + 1]
  }

  /** `todos.reduce(step, acc)`, left to right: each status's entry grows by
      its number of occurrences, and exactly the occurring statuses become
      keys. */
  function Tally(acc: map<string, nat>, todos: seq<Task>): (r: map<string, nat>)
    ensures forall status :: Lookup(r, status) == Lookup(acc, status) + Count(todos, status)
    ensures forall status :: status in r <==> status in acc || Count(todos, status) > 0
    decreases |todos|
  {
    if todos == [] then acc else Tally(Bump(acc, todos[0].status), todos[1..])
  }

  /** `statusCounts`, the reduce started from `{}`: the entry of each status
      is its number of records, and a status is a key exactly when it
      occurs. */
  function StatusCounts(todos: seq<Task>): (r: map<string, nat>)
    ensures forall status :: Lookup(r, status) == Count(todos, status)
    ensures forall status :: status in r <==> Count(todos, status) > 0
  {
    Tally(map[], todos)
  }

  /** `data.datasets[0].data`: pending, in progress, completed, in that
      order, 0 for a status that never occurs. */
  function ChartData(todos: seq<Task>): (data: seq<nat>)
    ensures |data| == 3
    ensures forall k | 0 <= k < 3 :: data[k] == Count(todos, Statuses[k])
  {
    var counts := StatusCounts(todos);
    [Lookup(counts, "pending"), Lookup(counts, "in_progress"), Lookup(counts, "completed")]
  }

  /** `data.reduce((a, b) => a + b, 0)`, left to right: no value exceeds it. */
  function Total(data: seq<nat>): (r: nat)
    ensures forall k | 0 <= k < |data| :: data[k] <= r
  {
    if data == [] then 0 else Total(data[..|data| - 1]) + data[|data| - 1]
  }

  /** Every record is counted under its own status, uncharted or not. */
  lemma {:induction false} CountsPartition(todos: seq<Task>)
    ensures Count(todos, "pending") + Count(todos, "in_progress") + Count(todos, "completed")
            + CountUncharted(todos) == |todos|
  {
    if todos != [] {
      CountsPartition(todos[1..]);
    }
  }

  /** No uncharted record means every status is one of the three. */
  lemma {:induction false} NoUncharted(todos: seq<Task>)
    ensures CountUncharted(todos) == 0 <==> forall k | 0 <= k < |todos| :: IsCharted(todos[k].status)
  {
    if todos != [] {
      NoUncharted(todos[1..]);
      assert forall k | 1 <= k < |todos| :: todos[k] == todos[1..][k - 1];
    }
  }

  /** The three chart values add up to at most the number of records, with
      equality exactly when every status is one of the three. */
  lemma ChartTotal(todos: seq<Task>)
    ensures Total(ChartData(todos)) <= |todos|
    ensures Total(ChartData(todos)) == |todos| <==> forall k | 0 <= k < |todos| :: IsCharted(todos[k].status)
  {
    var data := ChartData(todos);
    assert Total(data[..1]) == data[0] by { assert data[..1][..0] == []; }
    assert Total(data[..2]) == data[0] + data[1] by { assert data[..2][..1] == data[..1]; }
    assert Total(data) == data[0] + data[1] + data[2] by { assert data[..|data| - 1] == data[..2]; }
    CountsPartition(todos);
    NoUncharted(todos);
  }

  lemma {:induction false} CountConcat(a: seq<Task>, b: seq<Task>, status: string)
    ensures Count(a + b, status) == Count(a, status) + Count(b, status)
  {
    if a == [] {
      assert a + b == b;
    } else {
      assert (a + b)[0] == a[0] && (a + b)[1..] == a[1..] + b;
      CountConcat(a[1..], b, status);
    }
  }

  /** Taking out the element at `k` removes one occurrence of it. */
  lemma RemoveAt(b: seq<Task>, k: nat, status: string)
    requires k < |b|
    ensures multiset(b[..k] + b[k + 1..]) == multiset(b) - multiset{b[k]}
    ensures Count(b, status) == Count(b[..k] + b[k + 1..], status) + (if b[k].status == status then 1 else 0)
  {
    assert b == b[..k] + ([b[k]] + b[k + 1..]);
    CountConcat(b[..k], [b[k]] + b[k + 1..], status);
    CountConcat([b[k]], b[k + 1..], status);
    CountConcat(b[..k], b[k + 1..], status);
  }

  /** Counting does not depend on the order of the records. */
  lemma {:induction false} CountPermutation(a: seq<Task>, b: seq<Task>, status: string)
    requires multiset(a) == multiset(b)
    ensures Count(a, status) == Count(b, status)
    decreases |a|
  {
    if a == [] {
      assert |b| == |multiset(b)| == 0;
    } else {
      assert a[0] in multiset(b) by { assert a[0] in multiset(a); }
      var k :| 0 <= k < |b| && b[k] == a[0];
      RemoveAt(b, k, status);
      assert a == [a[0]] + a[1..];
      assert multiset(a[1..]) == multiset(a) - multiset{a[0]};
      CountPermutation(a[1..], b[..k] + b[k + 1..], status);
    }
  }

  /** Permuting the records gives the same `statusCounts`. */
  lemma StatusCountsPermutation(a: seq<Task>, b: seq<Task>)
    requires multiset(a) == multiset(b)
    ensures StatusCounts(a) == StatusCounts(b)
  {
    forall status ensures status in StatusCounts(a) <==> status in StatusCounts(b)
      ensures status in StatusCounts(a) ==> StatusCounts(a)[status] == StatusCounts(b)[status]
    {
      CountPermutation(a, b, status);
    }
  }

  /** The tooltip percentage with integer round-half-up in place of
      `Math.round((value / total) * 100)`: 0 for an empty dataset, and
      otherwise the integer nearest to 100 * value / total, halves rounded
      up; it lies in [0, 100] when the value is part of the total. */
  function Percentage(value: nat, total: nat): (p: nat)
    ensures total == 0 ==> p == 0
    ensures total > 0 ==> (2 * p - 1) * total <= 200 * value < (2 * p + 1) * total
    ensures total > 0 && value <= total ==> p <= 100
  {
    if total == 0 then 0
    else
      var p := (200 * value + total) / (2 * total);
      RoundHalfUp(value, total, p);
      p
  }

  /** The quotient of `200 * value + total` by `2 * total` is within half a
      unit of `100 * value / total`, and at most 100 for `value <= total`. */
  lemma RoundHalfUp(value: nat, total: nat, p: nat)
    requires total > 0 && p == (200 * value + total) / (2 * total)
    ensures (2 * p - 1) * total <= 200 * value < (2 * p + 1) * total
    ensures value <= total ==> p <= 100
  {
    var n, d := 200 * value + total, 2 * total;
    var m := n % d;
    assert n == d * p + m && 0 <= m < d;
    assert d * p == 2 * p * total;
    if value <= total && p > 100 {
      MultiplyMonotone(total, 201, 2 * p - 1);
      assert false;
    }
  }

  lemma MultiplyMonotone(x: nat, a: int, b: int)
    requires a <= b
    ensures a * x <= b * x
  {
  }

  /** The tooltip's `label` callback: the slice label and `raw` may be
      missing (`|| ''`, `|| 0`), and the total is the sum of the whole
      dataset. The text is the label, `": "`, the value in decimal, `" ("`,
      the percentage in decimal and `"%)"`. */
  function TooltipText(sliceLabel: Option<string>, raw: Option<nat>, dataset: seq<nat>): (text: string)
    ensures exists v, q | JsString.IsDecimal(v) && JsString.IsDecimal(q) ::
      && JsString.ParseDecimal(v) == raw.GetOr(0)
      && JsString.ParseDecimal(q) == Percentage(raw.GetOr(0), Total(dataset))
      && text == sliceLabel.GetOr("") + ": " + v + " (" + q + "%)"
  {
    var name := sliceLabel.GetOr("");
    var value := raw.GetOr(0);
    var percentage := Percentage(value, Total(dataset));
    var v := JsString.NatToString(value);
    var q := JsString.NatToString(percentage);
    JsString.ParseNatToString(value);
    JsString.ParseNatToString(percentage);
    assert JsString.IsDecimal(v) && JsString.IsDecimal(q);
    name + ": " + v + " (" + q + "%)"
  }

  /** The tooltip of chart slice `k`: its label, the number of records with
      that slice's status, and that number's share of the dataset as a
      percentage in [0, 100] (0 when there are no charted records). */
  lemma SliceTooltip(todos: seq<Task>, k: nat)
    requires k < 3
    ensures var data := ChartData(todos);
            var p := Percentage(Count(todos, Statuses[k]), Total(data));
            && TooltipText(Some(Labels[k]), Some(data[k]), data)
               == Labels[k] + ": " + JsString.NatToString(Count(todos, Statuses[k]))
                  + " (" + JsString.NatToString(p) + "%)"
            && p <= 100
            && (Total(data) == 0 ==> p == 0)
  {
  }
}
