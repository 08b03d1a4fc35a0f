/** The window schedule of the double-buffered activation offloader: after which group's commit
    each offloaded group is moved to the host, and before which group's backward pass it returns. */
module OffloadSchedule {
  /** A schedule maps the i-th window to the group that closes it. */
  type Windows = map<int, int>

  function Min(a: int, b: int): int {
    if a < b then a else b
  }

  /** The closed form of the i-th window for `layers` groups of which `groups` are offloaded. */
  function Window(layers: nat, groups: nat, i: nat): int
    requires groups > 0
  {
    (layers / groups) * (i + 1) - 1 + Min(i + 1, layers % groups)
  }

  /** What the handler relies on: one window per offloaded group, in increasing order, the last
      one closing with the last group. */
  ghost predicate WellScheduled(w: Windows, layers: nat, groups: nat) {
    && 1 <= groups <= layers
    && (forall i :: i in w <==> 0 <= i < groups)
    && (forall i, j :: 0 <= i < j < groups ==> w[i] < w[j])
    && (forall i :: 0 <= i < groups ==> i <= w[i] < layers)
    && (groups < layers ==> forall i :: 0 <= i < groups ==> i < w[i])
    && w[groups - 1] == layers - 1
  }

  lemma QuotientAtLeastOne(layers: nat, groups: nat)
    requires 1 <= groups <= layers
    ensures layers / groups >= 1
    ensures groups < layers && layers / groups == 1 ==> layers % groups >= 1
    ensures (layers / groups) * groups + layers % groups == layers
  {
    var q, r := layers / groups, layers % groups;
    assert layers == q * groups + r;
  }

  lemma TimesAtLeast(q: nat, n: nat)
    requires q >= 1
    ensures q * n >= n
    ensures q >= 2 ==> q * n >= 2 * n
  {
  }

  /** Every window closes no earlier than its own group, and strictly later when some group is
      never offloaded: so a group is moved only after its last tensor was pushed. */
  lemma {:induction false} WindowAfterGroup(layers: nat, groups: nat, i: nat)
    requires 1 <= groups <= layers && i < groups
    ensures i <= Window(layers, groups, i) < layers
    ensures groups < layers ==> i < Window(layers, groups, i)
    ensures i == groups - 1 ==> Window(layers, groups, i) == layers - 1
  {
    QuotientAtLeastOne(layers, groups);
    var q, r := layers / groups, layers % groups;
    TimesAtLeast(q, i + 1);
    TimesAtLeast(q, groups - 1 - i);
    assert q * groups == q * (i + 1) + q * (groups - 1 - i);
  }

  /** The windows close layers / groups groups apart, the first layers % groups of them one more. */
  lemma {:induction false} WindowGap(layers: nat, groups: nat, i: nat)
    requires groups > 0
    ensures Window(layers, groups, 0) == layers / groups - 1 + if 0 < layers % groups then 1 else 0
    ensures Window(layers, groups, i + 1) - Window(layers, groups, i)
            == layers / groups + if i + 1 < layers % groups then 1 else 0
  {
    var q := layers / groups;
    assert q * (i + 2) == q * (i + 1) + q;
  }

  lemma {:induction false} WindowsIncrease(layers: nat, groups: nat, i: nat, j: nat)
    requires 1 <= groups <= layers && i < j
    ensures Window(layers, groups, i) < Window(layers, groups, j)
    decreases j
  {
    QuotientAtLeastOne(layers, groups);
    WindowGap(layers, groups, j - 1);
    if i < j - 1 {
      WindowsIncrease(layers, groups, i, j - 1);
    }
  }

  lemma WindowsAreWellScheduled(w: Windows, layers: nat, groups: nat)
    requires 1 <= groups <= layers
    requires forall i :: i in w <==> 0 <= i < groups
    requires forall i | 0 <= i < groups :: w[i] == Window(layers, groups, i)
    ensures WellScheduled(w, layers, groups)
  {
    forall i | 0 <= i < groups
      ensures i <= w[i] < layers
      ensures groups < layers ==> i < w[i]
      ensures i == groups - 1 ==> w[i] == layers - 1
    {
      WindowAfterGroup(layers, groups, i);
    }
    forall i, j | 0 <= i < j < groups ensures w[i] < w[j] {
      WindowsIncrease(layers, groups, i, j);
    }
  }

  /** Builds the schedule with the running remainder `constant`, as the handler's constructor does. */
  method BuildWindows(layers: nat, groups: nat) returns (w: Windows)
    ensures forall i :: i in w <==> 0 <= i < groups
    ensures forall i | 0 <= i < groups :: w[i] == Window(layers, groups, i)
    ensures 1 <= groups <= layers ==> WellScheduled(w, layers, groups)
  {
    w := map[];
    var constant := 0;
    for i := 0 to groups
      invariant forall j :: j in w <==> 0 <= j < i
      invariant groups > 0 ==> constant == Min(i, layers % groups)
      invariant forall j | 0 <= j < i :: w[j] == Window(layers, groups, j)
    {
      var base := (layers / groups) * (i + 1) - 1;
      if i < layers % groups {
        w := w[i := base + i + 1];
        constant := i + 1;
      } else {
        w := w[i := base + constant];
      }
    }
    if 1 <= groups <= layers {
      WindowsAreWellScheduled(w, layers, groups);
    }
  }

  /** When all groups but the last are offloaded, as the trainer configures it, window i closes
      with group i + 1. */
  lemma AllButLastWindows(layers: nat, i: nat)
    requires 2 <= layers && i < layers - 1
    ensures Window(layers, layers - 1, i) == i + 1
  {
    assert layers == 1 * (layers - 1) + 1;
    if layers == 2 {
      assert layers / (layers - 1) == 2 && layers % (layers - 1) == 0;
    } else {
      assert layers / (layers - 1) == 1 && layers % (layers - 1) == 1;
    }
  }
}
