/**
 * The toast provider: toasts are appended in order, each named by the
 * millisecond it was added, and removed by name, either by hand or by the
 * timer scheduled when the duration is positive. The clock is a parameter
 * and a scheduled removal is reported rather than run.
 */
module ToastStack {
  import opened Common

  datatype Toast = Toast(id: nat, kind: string, message: string)

  const DefaultDuration: real := 3000.0

  /** The types with an icon of their own. */
  const IconTypes: set<string> := {"success", "error", "warning", "info"}

  /** `icons[type] || icons.info`: the icon a toast is drawn with. */
  function IconFor(kind: string): (icon: string)
    ensures icon in IconTypes
    ensures kind in IconTypes ==> icon == kind
    ensures kind !in IconTypes ==> icon == "info"
  {
    if kind in IconTypes then kind else "info"
  }

  /** What `addToast` does: the new list, the id it returns and the delay of the removal it schedules, if any. */
  datatype Added = Added(toasts: seq<Toast>, id: nat, removeAfter: Option<real>)

  /** `addToast(type, message, duration)` at time `now`; an omitted duration is `None`. */
  function AddToast(toasts: seq<Toast>, kind: string, message: string, duration: Option<real>, now: nat): (r: Added)
    ensures r.id == now
    ensures r.toasts == toasts + [Toast(now, kind, message)]
    ensures r.removeAfter.Some? <==> duration.GetOr(DefaultDuration) > 0.0
    ensures r.removeAfter.Some? ==> r.removeAfter.value == duration.GetOr(DefaultDuration)
  {
    var d := duration.GetOr(DefaultDuration);
    Added(toasts + [Toast(now, kind, message)], now, if d > 0.0 then Some(d) else None)
  }

  /** `removeToast(id)`: every toast with that id goes, the rest keep their order. */
  function RemoveToast(toasts: seq<Toast>, id: nat): (r: seq<Toast>)
    ensures |r| <= |toasts|
    ensures forall t :: t in r <==> t in toasts && t.id != id
    decreases |toasts|
  {
    if |toasts| == 0 then []
    else (if toasts[0].id == id then [] else [toasts[0]]) + RemoveToast(toasts[1..], id)
  }

  /** Removal distributes over concatenation. */
  lemma {:induction false} RemoveToastAppend(a: seq<Toast>, b: seq<Toast>, id: nat)
    ensures RemoveToast(a + b, id) == RemoveToast(a, id) + RemoveToast(b, id)
    decreases |a|
  {
    if |a| == 0 {
      assert a + b == b;
    } else {
      assert (a + b)[0] == a[0] && (a + b)[1..] == a[1..] + b;
      RemoveToastAppend(a[1..], b, id);
    }
  }

  /** An id no toast carries: removing it changes nothing. */
  lemma {:induction false} RemoveUnknownId(toasts: seq<Toast>, id: nat)
    requires forall i :: 0 <= i < |toasts| ==> toasts[i].id != id
    ensures RemoveToast(toasts, id) == toasts
    decreases |toasts|
  {
    if |toasts| > 0 {
      RemoveUnknownId(toasts[1..], id);
    }
  }

  /** When the timer fires, the toast it was scheduled for is gone and the others are as they were. */
  lemma AddThenExpire(toasts: seq<Toast>, kind: string, message: string, duration: Option<real>, now: nat)
    requires forall i :: 0 <= i < |toasts| ==> toasts[i].id != now
    ensures RemoveToast(AddToast(toasts, kind, message, duration, now).toasts, now) == toasts
  {
    RemoveToastAppend(toasts, [Toast(now, kind, message)], now);
    RemoveUnknownId(toasts, now);
  }

  /**
   * A zero or negative duration schedules nothing, so the toast stays until
   * closed; and two toasts added in the same millisecond share an id, so
   * closing either closes both.
   */
  lemma ExpiryLaws(toasts: seq<Toast>, k1: string, m1: string, k2: string, m2: string, d: real, now: nat)
    ensures d <= 0.0 ==> AddToast(toasts, k1, m1, Some(d), now).removeAfter.None?
    ensures var a := AddToast([], k1, m1, None, now).toasts;
            var b := AddToast(a, k2, m2, None, now).toasts;
            RemoveToast(b, now) == []
  {
    var a := AddToast([], k1, m1, None, now).toasts;
    var b := AddToast(a, k2, m2, None, now).toasts;
    assert b == [Toast(now, k1, m1)] + [Toast(now, k2, m2)];
    RemoveToastAppend([Toast(now, k1, m1)], [Toast(now, k2, m2)], now);
  }

  /** The four helpers `toast.success`, `error`, `warning` and `info`. */
  datatype Helper = SuccessHelper | ErrorHelper | WarningHelper | InfoHelper {
    function Kind(): string {
      match this
      case SuccessHelper => "success"
      case ErrorHelper => "error"
      case WarningHelper => "warning"
      case InfoHelper => "info"
    }
  }

  /** A helper call is `addToast` with the helper's own type, which has its own icon. */
  function Notify(h: Helper, toasts: seq<Toast>, message: string, duration: Option<real>, now: nat): (r: Added)
    ensures r == AddToast(toasts, h.Kind(), message, duration, now)
    ensures IconFor(r.toasts[|r.toasts| - 1].kind) == h.Kind()
  {
    AddToast(toasts, h.Kind(), message, duration, now)
  }
}
