/** The panel's reading of a schedule field. What a number or a name of a day or month means is a parameter. */
module CronFields {
  import opened Core
  import opened Strings

  /** The integer a text stands for; none when it stands for no integer. */
  type Reader = string -> Option<int>

  /** start, start + step, ... up to end. */
  datatype Progression = Progression(start: int, end: int, step: int)
  {
    function At(k: nat): int {
      start + k * step
    }

    ghost predicate Has(v: int) {
      exists k: nat :: v == At(k) && v <= end
    }
  }

  datatype Bad = EmptyValue | BadStep | BadRange | BadValue | OutOfRange

  datatype Chunk = Fine(p: Progression) | Wrong(why: Bad)

  datatype Field = Values(values: seq<int>) | Error(why: Bad)

  /** One value, range or step of a field; `trimmed` has no surrounding white space. */
  function ReadChunk(trimmed: string, min: int, max: int, number: Reader, token: Reader): Chunk {
    if trimmed == "" then Wrong(EmptyValue)
    else
      var slash := Index(trimmed, '/');
      var stepped := slash < |trimmed|;
      var step := if stepped then number(trimmed[slash + 1..]) else Some(1);
      if step.None? || step.value <= 0 then Wrong(BadStep)
      else
        var range := trimmed[..slash];
        if range == "*" then InBounds(Progression(min, max, step.value), min, max)
        else if '-' in range then
          var ends := Split(range, '-');
          var (a, b) := (token(ends[0]), if |ends| > 1 then token(ends[1]) else None);
          if a.None? || b.None? then Wrong(BadRange)
          else InBounds(Progression(a.value, b.value, step.value), min, max)
        else
          var single := token(range);
          if single.None? then Wrong(BadValue)
          else InBounds(Progression(single.value, if stepped then max else single.value, step.value), min, max)
  }

  function InBounds(p: Progression, min: int, max: int): Chunk {
    if p.start < min || p.end > max || p.start > p.end then Wrong(OutOfRange) else Fine(p)
  }

  function Trim(s: string): string {
    if s != "" && s[0] in " \t\n\r" then Trim(s[1..])
    else if s != "" && s[|s| - 1] in " \t\n\r" then Trim(s[..|s| - 1])
    else s
  }

  function Chunks(raw: string, min: int, max: int, number: Reader, token: Reader): seq<Chunk> {
    var parts := Split(raw, ',');
    seq(|parts|, i requires 0 <= i < |parts| => ReadChunk(Trim(parts[i]), min, max, number, token))
  }

  predicate Ascending(s: seq<int>) {
    forall i, j :: 0 <= i < j < |s| ==> s[i] < s[j]
  }

  /** Values of the first `n` chunks. */
  ghost predicate InSome(chunks: seq<Chunk>, n: nat, v: int) {
    exists i :: 0 <= i < n && i < |chunks| && chunks[i].Fine? && chunks[i].p.Has(v)
  }

  predicate FirstWrong(chunks: seq<Chunk>, i: int, why: Bad) {
    0 <= i < |chunks| && chunks[i] == Wrong(why) && forall j :: 0 <= j < i ==> chunks[j].Fine?
  }

  /**
   * A field is refused with the first chunk that cannot be read; otherwise its
   * values are the union of its progressions, ascending and without repeats.
   */
  method ParseField(raw: string, min: int, max: int, number: Reader, token: Reader) returns (field: Field)
    ensures var chunks := Chunks(raw, min, max, number, token);
      match field
      case Error(why) => exists i :: FirstWrong(chunks, i, why)
      case Values(values) =>
        && (forall i :: 0 <= i < |chunks| ==> chunks[i].Fine?)
        && Ascending(values) && values != []
        && (forall v :: v in values <==> InSome(chunks, |chunks|, v))
        && (forall v :: v in values ==> min <= v <= max)
  {
    var parts := Split(raw, ',');
    ghost var chunks := Chunks(raw, min, max, number, token);
    var values: set<int> := {};
    ChunksOfParts(raw, min, max, number, token);
    NoneBefore(chunks);
    hide Split, Trim, InSome, ReadChunk, Chunks;
    for i := 0 to |parts|
      invariant forall j :: 0 <= j < i ==> chunks[j].Fine?
      invariant forall v :: v in values <==> InSome(chunks, i, v)
      invariant forall v :: v in values ==> min <= v <= max
      invariant i > 0 ==> values != {}
    {
      var chunk := ReadChunk(Trim(parts[i]), min, max, number, token);
      ReadInBounds(Trim(parts[i]), min, max, number, token);
      match chunk {
        case Wrong(why) =>
          assert FirstWrong(chunks, i, why);
          return Error(why);
        case Fine(p) =>
          var more := AddAll(values, p);
          AddedOneMore(values, more, chunks, i, p, min, max);
          values := more;
      }
    }
    var sorted := Sorted(values, min, max);
    return Values(sorted);
  }

  lemma ChunksOfParts(raw: string, min: int, max: int, number: Reader, token: Reader)
    ensures var (parts, chunks) := (Split(raw, ','), Chunks(raw, min, max, number, token));
      |chunks| == |parts| && forall i :: 0 <= i < |parts| ==> chunks[i] == ReadChunk(Trim(parts[i]), min, max, number, token)
  {
    hide Split, Trim, ReadChunk;
  }

  lemma ReadInBounds(trimmed: string, min: int, max: int, number: Reader, token: Reader)
    ensures var c := ReadChunk(trimmed, min, max, number, token);
      c.Fine? ==> min <= c.p.start <= c.p.end <= max && c.p.step > 0
  {
  }

  lemma NoneBefore(chunks: seq<Chunk>)
    ensures forall v :: !InSome(chunks, 0, v)
  {
  }

  lemma ProgressionBounds(p: Progression)
    requires p.step > 0
    ensures forall v :: p.Has(v) ==> p.start <= v <= p.end
  {
    forall v | p.Has(v)
      ensures p.start <= v <= p.end
    {
      var k: nat :| v == p.At(k) && v <= p.end;
      AtGrows(p, 0, k);
      assert p.At(0) == p.start;
    }
  }

  lemma InSomeMore(chunks: seq<Chunk>, n: nat, v: int)
    requires n < |chunks|
    ensures InSome(chunks, n + 1, v) <==> InSome(chunks, n, v) || (chunks[n].Fine? && chunks[n].p.Has(v))
  {
    if InSome(chunks, n, v) {
      var i :| 0 <= i < n && i < |chunks| && chunks[i].Fine? && chunks[i].p.Has(v);
      assert i < n + 1;
    }
  }

  lemma AddedOneMore(values: set<int>, more: set<int>, chunks: seq<Chunk>, i: nat, p: Progression, min: int, max: int)
    requires i < |chunks| && chunks[i] == Fine(p) && min <= p.start <= p.end <= max && p.step > 0
    requires forall v :: v in more <==> v in values || p.Has(v)
    requires forall v :: v in values <==> InSome(chunks, i, v)
    requires forall v :: v in values ==> min <= v <= max
    ensures forall v :: v in more <==> InSome(chunks, i + 1, v)
    ensures forall v :: v in more ==> min <= v <= max
    ensures more != {}
  {
    hide InSome;
    forall v
      ensures v in more <==> InSome(chunks, i + 1, v)
    {
      InSomeMore(chunks, i, v);
    }
    assert p.start == p.At(0) && p.Has(p.start);
    ProgressionBounds(p);
    assert p.start in more;
  }

  method AddAll(values: set<int>, p: Progression) returns (more: set<int>)
    requires p.step > 0
    ensures forall v :: v in more <==> v in values || p.Has(v)
  {
    more := values;
    var v := p.start;
    ghost var n: nat := 0;
    while v <= p.end
      invariant v == p.At(n)
      invariant forall u :: u in more <==> u in values || exists k: nat :: k < n && u == p.At(k)
      invariant forall k: nat :: k < n ==> p.At(k) <= p.end
      decreases p.end - v
    {
      more := more + {v};
      NextAt(p.step, n);
      v := v + p.step;
      n := n + 1;
    }
    forall u | p.Has(u)
      ensures u in more
    {
      var k: nat :| u == p.At(k) && u <= p.end;
      if k >= n {
        AtGrows(p, n, k);
      }
    }
  }

  lemma AtGrows(p: Progression, n: nat, k: nat)
    requires p.step > 0 && n <= k
    ensures p.At(n) + (k - n) <= p.At(k)
    decreases k
  {
    if n < k {
      AtGrows(p, n, k - 1);
      NextAt(p.step, k - 1);
    }
  }

  lemma NextAt(step: int, k: nat)
    ensures (k + 1) * step == k * step + step
  {
  }

  /** The values in ascending order. */
  method Sorted(values: set<int>, min: int, max: int) returns (out: seq<int>)
    requires forall v :: v in values ==> min <= v <= max
    ensures Ascending(out) && forall v :: v in out <==> v in values
  {
    out := [];
    var v := min;
    while v <= max
      invariant Ascending(out) && forall i :: 0 <= i < |out| ==> out[i] < v
      invariant forall u :: u in out <==> u in values && u < v
    {
      if v in values {
        out := out + [v];
      }
      v := v + 1;
    }
  }

  // ---------------------------------------------------------------------------
  // Recognising a step
  // ---------------------------------------------------------------------------

  /** `values` are the values of `*` with this step. */
  ghost predicate IsEveryStepOf(values: seq<int>, min: int, max: int, step: int) {
    && (forall i :: 0 <= i < |values| ==> values[i] == min + i * step)
    && (values != [] ==> values[|values| - 1] <= max < values[|values| - 1] + step)
  }

  /** A step is named exactly when the values are those of `*` with it and there are at least two. */
  method IsEveryStep(values: seq<int>, min: int, max: int) returns (step: Option<int>)
    requires Ascending(values) && forall i :: 0 <= i < |values| ==> min <= values[i] <= max
    ensures step.Some? ==> |values| >= 2 && step.value >= 1 && IsEveryStepOf(values, min, max, step.value)
    ensures step.None? ==> |values| < 2 || forall s :: !IsEveryStepOf(values, min, max, s)
  {
    if |values| < 2 {
      return None;
    }
    var d := values[1] - values[0];
    if values[0] != min {
      assert forall s :: min + 0 * s == min;
      return None;
    }
    for i := 1 to |values|
      invariant forall j :: 0 <= j < i ==> values[j] == min + j * d
    {
      if values[i] - values[i - 1] != d {
        forall s
          ensures !IsEveryStepOf(values, min, max, s)
        {
          StepsAgree(values, min, max, s, i);
          StepsAgree(values, min, max, s, 1);
        }
        return None;
      }
      assert values[i - 1] + d == min + (i - 1) * d + d == min + i * d;
    }
    if values[|values| - 1] + d <= max {
      forall s
        ensures !IsEveryStepOf(values, min, max, s)
      {
        StepsAgree(values, min, max, s, 1);
      }
      return None;
    }
    return Some(d);
  }

  lemma StepsAgree(values: seq<int>, min: int, max: int, s: int, i: nat)
    requires 0 < i < |values|
    ensures IsEveryStepOf(values, min, max, s) ==> values[i] - values[i - 1] == s
  {
    if IsEveryStepOf(values, min, max, s) {
      assert values[i] == min + i * s && values[i - 1] == min + (i - 1) * s;
      NextAt(s, i - 1);
    }
  }

  lemma {:induction false} AscendingIsUnique(a: seq<int>, b: seq<int>)
    requires Ascending(a) && Ascending(b) && forall v :: v in a <==> v in b
    ensures a == b
  {
    assert (a != [] ==> a[0] in a) && (b != [] ==> b[0] in b);
    if a != [] && b != [] {
      var (la, lb) := (a[|a| - 1], b[|b| - 1]);
      assert la in b && lb in a;
      assert la == lb;
      var (ia, ib) := (a[..|a| - 1], b[..|b| - 1]);
      forall v
        ensures v in ia <==> v in ib
      {
        WithoutLast(a, v);
        WithoutLast(b, v);
      }
      AscendingIsUnique(ia, ib);
      assert a == ia + [la] && b == ib + [lb];
    }
  }

  lemma WithoutLast(a: seq<int>, v: int)
    requires Ascending(a) && a != []
    ensures v in a[..|a| - 1] <==> v in a && v != a[|a| - 1]
  {
    if v in a && v != a[|a| - 1] {
      var i :| 0 <= i < |a| && a[i] == v;
      assert a[..|a| - 1][i] == v;
    }
  }

  /** The values of a progression, listed. */
  lemma {:induction false} Listing(p: Progression, n: nat) returns (s: seq<int>)
    requires p.step > 0 && p.At(n) <= p.end
    ensures |s| > n && Ascending(s) && (forall i :: 0 <= i < |s| ==> s[i] == p.At(i))
    ensures forall v :: v in s <==> p.Has(v)
    ensures s[|s| - 1] <= p.end < s[|s| - 1] + p.step
    decreases p.end - p.At(n)
  {
    NextAt(p.step, n);
    if p.At(n + 1) <= p.end {
      s := Listing(p, n + 1);
    } else {
      s := seq(n + 1, i requires 0 <= i => p.At(i));
      forall i, j | 0 <= i < j < |s|
        ensures s[i] < s[j]
      {
        AtGrows(p, i, j);
      }
      forall v
        ensures v in s <==> p.Has(v)
      {
        if v in s {
          var i :| 0 <= i < |s| && s[i] == v;
          AtGrows(p, i, n);
          assert v == p.At(i);
        }
        if p.Has(v) {
          var k: nat :| v == p.At(k) && v <= p.end;
          if k > n {
            AtGrows(p, n + 1, k);
          }
          assert s[k] == v;
        }
      }
    }
  }

  /** The values of `*` with step s are those the recogniser looks for, and it can see the step exactly when a second value fits. */
  lemma StarStepIsRecognised(values: seq<int>, min: int, max: int, s: int)
    requires s >= 1 && min <= max
    requires Ascending(values) && forall v :: v in values <==> Progression(min, max, s).Has(v)
    ensures IsEveryStepOf(values, min, max, s)
    ensures |values| >= 2 <==> min + s <= max
    ensures forall s' :: |values| >= 2 && IsEveryStepOf(values, min, max, s') ==> s' == s
  {
    var p := Progression(min, max, s);
    assert p.At(0) == min;
    var list := Listing(p, 0);
    AscendingIsUnique(values, list);
    assert |values| >= 2 ==> values[1] == p.At(1) == min + s && values[1] <= values[|values| - 1];
    assert |values| == 1 ==> values[0] == p.At(0);
    forall s' | |values| >= 2 && IsEveryStepOf(values, min, max, s')
      ensures s' == s
    {
      StepsAgree(values, min, max, s', 1);
    }
  }
}
