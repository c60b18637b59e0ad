/** Routine expansion (`setRoutine`): a template of L items is repeated cyclically for at most
    100 cycles and at most 1000 occurrences, each occurrence one day after the previous one. */
module RoutineSchedule {
  import opened Entities
  import opened Seqs

  const MAX_CYCLES: nat := 100
  const MAX_OCCURRENCES: nat := 1000

  /** How many occurrences a template of length `L` expands to. */
  function Bound(L: nat): nat {
    if MAX_CYCLES * L < MAX_OCCURRENCES then MAX_CYCLES * L else MAX_OCCURRENCES
  }

  /** Occurrence `k`: template item `k % L`, dated `k` days after `base`. */
  function ScheduledAt(template: seq<TemplateItem>, base: int, k: nat): Occurrence
    requires |template| > 0
  {
    var item := template[k % |template|];
    Occurrence(item.id, item.workout, base + k * DAY_MS)
  }

  /** The whole expanded routine anchored at day `base`. */
  function Expansion(template: seq<TemplateItem>, base: int): (r: seq<Occurrence>)
    ensures |r| <= MAX_OCCURRENCES && |r| <= MAX_CYCLES * |template|
    ensures |r| == MAX_OCCURRENCES || |r| == MAX_CYCLES * |template|
  {
    seq(Bound(|template|), (k: int) requires 0 <= k < Bound(|template|) => ScheduledAt(template, base, k))
  }

  function EarlierDate(a: Occurrence, b: Occurrence): bool {
    a.date < b.date
  }

  /** The source dates position `j` of cycle `i` as the position's offset plus whole cycles;
      that is occurrence `i * L + j` days after the anchor. */
  lemma CycleDate(base: int, i: nat, j: nat, L: nat)
    requires j < L
    ensures (base + j * DAY_MS) + i * (L * DAY_MS) == base + (i * L + j) * DAY_MS
    ensures base + ((i * L + j) % L) * DAY_MS + ((i * L + j) / L) * (L * DAY_MS) == base + (i * L + j) * DAY_MS
  {
    assert i * (L * DAY_MS) == (i * L) * DAY_MS;
    CycleDivMod(i, j, L);
  }

  /** Occurrence `k` carries template item `k % L` and is dated exactly `k` days after `base`. */
  lemma ExpansionAt(template: seq<TemplateItem>, base: int, k: nat)
    requires k < |Expansion(template, base)|
    ensures |template| > 0
    ensures Expansion(template, base)[k].id == template[k % |template|].id
    ensures Expansion(template, base)[k].workout == template[k % |template|].workout
    ensures Expansion(template, base)[k].date == base + k * DAY_MS
  {
  }

  /** Occurrence dates strictly increase, so no two occurrences share a day. */
  lemma ExpansionIncreasing(template: seq<TemplateItem>, base: int)
    ensures Pairwise(Expansion(template, base), EarlierDate)
  {
    var r := Expansion(template, base);
    forall i, j | 0 <= i < j < |r| ensures EarlierDate(r[i], r[j]) {
      ExpansionAt(template, base, i);
      ExpansionAt(template, base, j);
    }
  }

  /** Across a cycle boundary the same template item recurs exactly L days later. */
  lemma ExpansionCycle(template: seq<TemplateItem>, base: int, k: nat)
    requires k + |template| < |Expansion(template, base)|
    ensures Expansion(template, base)[k + |template|].id == Expansion(template, base)[k].id
    ensures Expansion(template, base)[k + |template|].workout == Expansion(template, base)[k].workout
    ensures Expansion(template, base)[k + |template|].date == Expansion(template, base)[k].date + |template| * DAY_MS
  {
    var L := |template|;
    ExpansionAt(template, base, k);
    ExpansionAt(template, base, k + L);
    NextCycleSamePosition(k, L);
  }

  /** One cycle further on is the same position in the cycle. */
  lemma NextCycleSamePosition(k: nat, L: nat)
    requires L > 0
    ensures (k + L) % L == k % L
  {
    var q, m := k / L, k % L;
    assert k + L == (q + 1) * L + m;
    CycleDivMod(q + 1, m, L);
  }

  /** A two-item template fills all 100 cycles: 200 occurrences, days `base`, `base + 1`, and
      `base + 2` opening the second cycle with the first item again. */
  lemma TwoItemExample(push: TemplateItem, pull: TemplateItem, base: int)
    ensures |Expansion([push, pull], base)| == 200
    ensures Expansion([push, pull], base)[0] == Occurrence(push.id, push.workout, base)
    ensures Expansion([push, pull], base)[1] == Occurrence(pull.id, pull.workout, base + DAY_MS)
    ensures Expansion([push, pull], base)[2] == Occurrence(push.id, push.workout, base + 2 * DAY_MS)
  {
    ExpansionAt([push, pull], base, 0);
    ExpansionAt([push, pull], base, 1);
    ExpansionAt([push, pull], base, 2);
  }

  /** Position `j` of cycle `i` is occurrence `i * L + j`. */
  lemma CycleDivMod(i: nat, j: nat, L: nat)
    requires j < L
    ensures (i * L + j) / L == i && (i * L + j) % L == j
  {
    var k := i * L + j;
    var q, m := k / L, k % L;
    assert (q - i) * L == j - m;
    MultipleBetween(q - i, L);
  }

  /** The only multiple of `L` strictly between `-L` and `L` is zero. */
  lemma MultipleBetween(x: int, L: int)
    requires L > 0 && -L < x * L < L
    ensures x == 0
  {
    if x >= 1 {
      MultipleAtLeast(x, L);
    } else if x <= -1 {
      MultipleAtLeast(-x, L);
    }
  }

  lemma MultipleAtLeast(x: int, L: int)
    requires x >= 1 && L > 0
    ensures x * L >= L && (-x) * L <= -L
  {
  }

  /** The expansion loop of `setRoutine`: the template is first dated by position, then every
      cycle pushes each dated item shifted by whole cycles while fewer than 1000 are collected. */
  method ExpandRoutine(template: seq<TemplateItem>, base: int) returns (calendar: seq<Occurrence>)
    ensures calendar == Expansion(template, base)
  {
    var L := |template|;
    var dated := seq(L, (j: int) requires 0 <= j < L =>
      Occurrence(template[j].id, template[j].workout, base + j * DAY_MS));
    calendar := [];
    for i := 0 to MAX_CYCLES
      invariant |calendar| == if i * L < MAX_OCCURRENCES then i * L else MAX_OCCURRENCES
      invariant forall k :: 0 <= k < |calendar| ==> L > 0 && calendar[k] == ScheduledAt(template, base, k)
    {
      for j := 0 to L
        invariant |calendar| == if i * L + j < MAX_OCCURRENCES then i * L + j else MAX_OCCURRENCES
        invariant forall k :: 0 <= k < |calendar| ==> calendar[k] == ScheduledAt(template, base, k)
      {
        if |calendar| < MAX_OCCURRENCES {
          CycleDivMod(i, j, L);
          CycleDate(base, i, j, L);
          calendar := calendar + [Occurrence(dated[j].id, dated[j].workout, dated[j].date + i * (L * DAY_MS))];
        }
      }
      assert i * L + L == (i + 1) * L;
    }
  }
}
