/** The toast queue of frontend/js/hooks/use-toast.tsx: a module-wide counter
    numbers every toast, a provider appends each new toast to its list, and the
    three-second timer drops it again by id. The timer is an explicit `Expire`
    step here. */
module Toasts {
  import opened Wrappers
  import opened Text

  datatype Variant = Default | Destructive

  /** The argument of `toast(...)`: everything but the id, all optional. */
  datatype ToastRequest = ToastRequest(title: Option<string>, description: Option<string>, variant: Option<Variant>)

  datatype Toast = Toast(id: string, title: Option<string>, description: Option<string>, variant: Variant)

  /** The toast `toast(req)` creates when the counter stood at `n`: the id is
      the decimal of the pre-incremented counter, the variant defaults to Default. */
  function NewToast(n: nat, req: ToastRequest): (t: Toast)
    ensures t.id == Decimal(n + 1) && ParseDecimal(t.id) == n + 1
    ensures t.title == req.title && t.description == req.description
    ensures req.variant.None? ==> t.variant == Default
    ensures req.variant.Some? ==> t.variant == req.variant.value
  {
    ParseDecimalOfDecimal(n + 1);
    Toast(Decimal(n + 1), req.title, req.description, req.variant.GetOr(Default))
  }

  /** Every id is the decimal of a number in 1..bound, and the numbers rise
      strictly along the list. */
  predicate IdsIncreasing(ts: seq<Toast>, bound: nat) {
    (forall i :: 0 <= i < |ts| ==> IsDigits(ts[i].id) && 0 < ParseDecimal(ts[i].id) <= bound)
    && (forall i, j :: 0 <= i < j < |ts| ==> ParseDecimal(ts[i].id) < ParseDecimal(ts[j].id))
  }

  /** Rising ids are distinct ids. */
  lemma IdsDistinct(ts: seq<Toast>, bound: nat, i: nat, j: nat)
    requires IdsIncreasing(ts, bound)
    requires i < j < |ts|
    ensures ts[i].id != ts[j].id
  {
  }

  /** Appending a new toast keeps the ids rising, with the counter one higher. */
  lemma AppendKeepsIds(ts: seq<Toast>, n: nat, req: ToastRequest)
    requires IdsIncreasing(ts, n)
    ensures IdsIncreasing(ts + [NewToast(n, req)], n + 1)
  {
    var ts' := ts + [NewToast(n, req)];
    forall i, j | 0 <= i < j < |ts'| ensures ParseDecimal(ts'[i].id) < ParseDecimal(ts'[j].id) {
      assert ts'[i] == ts[i];
    }
  }

  /** No deduplication: the same request twice gives two toasts that differ
      only in their ids. */
  lemma SameRequestTwice(n: nat, req: ToastRequest)
    ensures NewToast(n, req).id != NewToast(n + 1, req).id
    ensures NewToast(n, req).(id := "") == NewToast(n + 1, req).(id := "")
  {
    DecimalInjective(n + 1, n + 2);
  }

  /** `prev.filter((t) => t.id !== id)`. */
  function WithoutId(ts: seq<Toast>, id: string): (r: seq<Toast>)
    ensures |r| <= |ts|
    ensures forall t :: t in r <==> t in ts && t.id != id
    ensures (forall i :: 0 <= i < |ts| ==> ts[i].id != id) ==> r == ts
  {
    if ts == [] then []
    else if ts[0].id == id then WithoutId(ts[1..], id)
    else [ts[0]] + WithoutId(ts[1..], id)
  }

  /** Filtering keeps the relative order: it distributes over concatenation. */
  lemma {:induction false} WithoutIdAppend(a: seq<Toast>, b: seq<Toast>, id: string)
    ensures WithoutId(a + b, id) == WithoutId(a, id) + WithoutId(b, id)
  {
    if a == [] {
      assert a + b == b;
    } else {
      assert (a + b)[0] == a[0];
      assert (a + b)[1..] == a[1..] + b;
      WithoutIdAppend(a[1..], b, id);
    }
  }

  lemma IdsIncreasingTail(ts: seq<Toast>, bound: nat)
    requires ts != [] && IdsIncreasing(ts, bound)
    ensures IdsIncreasing(ts[1..], bound)
    ensures forall t :: t in ts[1..] ==> ParseDecimal(ts[0].id) < ParseDecimal(t.id)
  {
    var tail := ts[1..];
    forall i | 0 <= i < |tail| ensures tail[i] == ts[i + 1] { }
  }

  /** Filtering keeps the ids rising. */
  lemma {:induction false} WithoutIdKeepsIds(ts: seq<Toast>, bound: nat, id: string)
    requires IdsIncreasing(ts, bound)
    ensures IdsIncreasing(WithoutId(ts, id), bound)
  {
    if ts != [] {
      IdsIncreasingTail(ts, bound);
      WithoutIdKeepsIds(ts[1..], bound, id);
      if ts[0].id != id {
        HeadKeepsIds(ts[0], WithoutId(ts[1..], id), bound);
      }
    }
  }

  lemma HeadKeepsIds(t: Toast, rest: seq<Toast>, bound: nat)
    requires IsDigits(t.id) && 0 < ParseDecimal(t.id) <= bound
    requires IdsIncreasing(rest, bound)
    requires forall u :: u in rest ==> ParseDecimal(t.id) < ParseDecimal(u.id)
    ensures IdsIncreasing([t] + rest, bound)
  {
    var r := [t] + rest;
    forall j | 0 < j < |r| ensures r[j] == rest[j - 1] && r[j] in rest { }
  }

  /** The module-level `toastCount`, shared by every provider. */
  class ToastCounter {
    var count: nat

    constructor ()
      ensures count == 0
    {
      count := 0;
    }
  }

  /** A `ToastProvider`'s list of toasts, numbered from the shared counter. */
  class ToastProvider {
    var toasts: seq<Toast>
    const counter: ToastCounter

    ghost predicate Valid()
      reads this, counter
    {
      IdsIncreasing(toasts, counter.count)
    }

    constructor (counter: ToastCounter)
      ensures this.counter == counter && toasts == []
      ensures Valid()
    {
      this.counter := counter;
      toasts := [];
    }

    /** `toast(req)`: bump the counter and append; the returned id is the one
        the expiry timer captures. */
    method Toast(req: ToastRequest) returns (id: string)
      requires Valid()
      modifies this, counter
      ensures counter.count == old(counter.count) + 1
      ensures toasts == old(toasts) + [NewToast(old(counter.count), req)]
      ensures id == Decimal(counter.count)
      ensures Valid()
    {
      AppendKeepsIds(toasts, counter.count, req);
      var t := NewToast(counter.count, req);
      counter.count := counter.count + 1;
      id := t.id;
      toasts := toasts + [t];
    }

    /** The timer firing for `id`: the toasts with that id go, the rest keep their order. */
    method Expire(id: string)
      requires Valid()
      modifies this
      ensures toasts == WithoutId(old(toasts), id)
      ensures Valid()
    {
      WithoutIdKeepsIds(toasts, counter.count, id);
      toasts := WithoutId(toasts, id);
    }
  }

  /** The `toasts` of `useToast()`: the provider's list, or `[]` outside one. */
  function Shown(provider: ToastProvider?): (r: seq<Toast>)
    reads provider
    ensures provider == null ==> r == []
    ensures provider != null ==> r == provider.toasts
  {
    if provider == null then [] else provider.toasts
  }

  /** `useToast().toast(req)`: outside a provider the fallback does nothing,
      not even count. */
  method Emit(provider: ToastProvider?, counter: ToastCounter, req: ToastRequest)
    requires provider != null ==> provider.counter == counter && provider.Valid()
    modifies if provider == null then {} else {provider}, if provider == null then {} else {counter}
    ensures provider == null ==> counter.count == old(counter.count)
    ensures provider != null ==>
      && counter.count == old(counter.count) + 1
      && provider.toasts == old(provider.toasts) + [NewToast(old(counter.count), req)]
      && provider.Valid()
  {
    if provider != null {
      var _ := provider.Toast(req);
    }
  }
}
