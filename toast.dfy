/** `hooks/useToast.ts`: the list of visible notifications. The random id is a parameter
    and the 4000 ms timer is the explicit event `Expire`. */
module Toast {

  datatype ToastType = Success | Error | Info

  datatype AppToast = AppToast(id: string, message: string, kind: ToastType)

  /** One call of `addToast(message, type)` made by a hook or component; its id and
      expiry belong to `Toasts` below. */
  datatype Notice = Notice(message: string, kind: ToastType)

  /** `toasts.filter(t => t.id !== id)`. */
  function Without(toasts: seq<AppToast>, id: string): (r: seq<AppToast>)
    ensures |r| <= |toasts|
    ensures forall t :: t in r <==> t in toasts && t.id != id
  {
    if toasts == [] then []
    else if toasts[0].id == id then Without(toasts[1..], id)
    else [toasts[0]] + Without(toasts[1..], id)
  }

  /** Removal keeps the order: it distributes over concatenation. */
  lemma {:induction false} WithoutAppend(a: seq<AppToast>, b: seq<AppToast>, id: string)
    ensures Without(a + b, id) == Without(a, id) + Without(b, id)
    decreases |a|
  {
    if a != [] {
      assert (a + b)[0] == a[0];
      assert (a + b)[1..] == a[1..] + b;
      WithoutAppend(a[1..], b, id);
    } else {
      assert a + b == b;
    }
  }

  /** Removing an id nobody carries changes nothing. */
  lemma {:induction false} WithoutAbsent(toasts: seq<AppToast>, id: string)
    requires forall i :: 0 <= i < |toasts| ==> toasts[i].id != id
    ensures Without(toasts, id) == toasts
    decreases |toasts|
  {
    if toasts != [] {
      WithoutAbsent(toasts[1..], id);
    }
  }

  /** Removing twice is removing once. */
  lemma WithoutIdempotent(toasts: seq<AppToast>, id: string)
    ensures Without(Without(toasts, id), id) == Without(toasts, id)
  {
    var r := Without(toasts, id);
    assert forall i :: 0 <= i < |r| ==> r[i] in r;
    WithoutAbsent(r, id);
  }

  class Toasts {
    var toasts: seq<AppToast>

    constructor ()
      ensures toasts == []
    {
      toasts := [];
    }

    /** `addToast`: append one toast at the end. */
    method AddToast(id: string, message: string, kind: ToastType)
      modifies this
      ensures toasts == old(toasts) + [AppToast(id, message, kind)]
    {
      toasts := toasts + [AppToast(id, message, kind)];
    }

    /** `removeToast(id)`: drop every toast with that id, keep the rest in order. */
    method RemoveToast(id: string)
      modifies this
      ensures toasts == Without(old(toasts), id)
    {
      toasts := Without(toasts, id);
    }

    /** The timer `addToast` starts fires: the same filter as `removeToast`. */
    method Expire(id: string)
      modifies this
      ensures toasts == Without(old(toasts), id)
    {
      toasts := Without(toasts, id);
    }
  }

  /** A toast whose id was unique disappears on expiry and leaves the list as it was. */
  lemma ExpireUndoesAdd(toasts: seq<AppToast>, t: AppToast)
    requires forall i :: 0 <= i < |toasts| ==> toasts[i].id != t.id
    ensures Without(toasts + [t], t.id) == toasts
  {
    WithoutAppend(toasts, [t], t.id);
    WithoutAbsent(toasts, t.id);
    assert Without([t], t.id) == [];
  }
}
