/**
 * The notification centre's list: each shown notification is kept as an
 * unread entry at the front, at most fifty are kept, and entries are
 * marked read rather than removed. The toast library that draws them and
 * the browser's own notifications stay outside; the clock that names each
 * entry is a parameter.
 */
module Notifications {
  import opened Common
  import opened Text

  /** `NOTIFICATION_TYPES`, keyed by the upper-case name. */
  const NotificationTypes: map<string, string> :=
    map["SUCCESS" := "success", "ERROR" := "error", "INFO" := "info", "WARNING" := "warning"]

  const DefaultType: string := "info"
  const DefaultDuration: real := 4.5
  const DefaultPlacement: string := "topRight"
  const MaxKept: nat := 50

  /** An entry of the list. */
  datatype Notice = Notice(key: string, kind: string, message: Option<string>, description: Option<string>, read: bool)

  /** `showNotification`'s argument; an omitted field is `None`. */
  datatype Config = Config(
    kind: Option<string>,
    message: Option<string>,
    description: Option<string>,
    duration: Option<real>,
    placement: Option<string>)

  /** What is handed to the toast library: the key, the type, the texts, the duration and the placement. */
  datatype Display = Display(key: string, kind: string, message: Option<string>, description: Option<string>,
                             duration: real, placement: string)

  /** `notification_${Date.now()}`. */
  function KeyAt(now: nat): (k: string)
    ensures IsPrefix("notification_", k)
  {
    "notification_" + NatToString(now)
  }

  /** The list's invariant: no more than fifty entries. */
  predicate Bounded(list: seq<Notice>) {
    |list| <= MaxKept
  }

  /**
   * A type the toast library has a method for. The call `api[type](...)`
   * on any other type has no function to call and throws.
   */
  predicate KnownKind(kind: string) {
    kind in NotificationTypes.Values
  }

  /**
   * `showNotification(config)` at time `now`: the displayed notification
   * with its defaults filled in, and the list with the new unread entry in
   * front, cut to the fifty newest. The toast is drawn before the list is
   * updated, so an unknown type throws there and leaves the list as it was
   * (`None`).
   */
  function Show(list: seq<Notice>, c: Config, now: nat): (r: Option<(seq<Notice>, Display)>)
    ensures r.Some? <==> KnownKind(c.kind.GetOr(DefaultType))
    ensures r.Some? ==> |r.value.0| == Min(|list| + 1, MaxKept) && Bounded(r.value.0)
    ensures r.Some? ==> r.value.0[0] == Notice(KeyAt(now), c.kind.GetOr(DefaultType), c.message, c.description, false)
    ensures r.Some? ==> r.value.0[1..] == list[..|r.value.0| - 1]
    ensures r.Some? ==> r.value.1.key == KeyAt(now) && r.value.1.kind == r.value.0[0].kind
    ensures r.Some? ==> r.value.1.duration == c.duration.GetOr(DefaultDuration)
                        && r.value.1.placement == c.placement.GetOr(DefaultPlacement)
  {
    var kind := c.kind.GetOr(DefaultType);
    if !KnownKind(kind) then None
    else
      var entry := Notice(KeyAt(now), kind, c.message, c.description, false);
      var full := [entry] + list;
      var kept := full[..Min(|full|, MaxKept)];
      assert kept[1..] == list[..|kept| - 1];
      Some((kept, Display(KeyAt(now), kind, c.message, c.description, c.duration.GetOr(DefaultDuration),
                          c.placement.GetOr(DefaultPlacement))))
  }

  /** The default type is a known one; a misspelt type shows nothing and keeps the list. */
  lemma ShowKinds(list: seq<Notice>, c: Config, now: nat)
    ensures Show(list, c.(kind := None), now).Some?
    ensures Show(list, c.(kind := Some("Success")), now).None?
  {
    assert NotificationTypes["INFO"] == DefaultType;
    assert NotificationTypes.Keys == {"SUCCESS", "ERROR", "INFO", "WARNING"};
    forall k | k in NotificationTypes
      ensures NotificationTypes[k] != "Success"
    {
      assert k == "SUCCESS" || k == "ERROR" || k == "INFO" || k == "WARNING";
    }
  }

  /** `removeNotification(key)`: every entry with that key is marked read; nothing is removed. */
  function Remove(list: seq<Notice>, key: string): (r: seq<Notice>)
    ensures |r| == |list|
    ensures forall i :: 0 <= i < |list| ==> r[i] == (if list[i].key == key then list[i].(read := true) else list[i])
    decreases |list|
  {
    if |list| == 0 then []
    else [if list[0].key == key then list[0].(read := true) else list[0]] + Remove(list[1..], key)
  }

  /** `markAllAsRead()`: every entry read, in the same order. */
  function MarkAllAsRead(list: seq<Notice>): (r: seq<Notice>)
    ensures |r| == |list|
    ensures forall i :: 0 <= i < |list| ==> r[i] == list[i].(read := true)
    decreases |list|
  {
    if |list| == 0 then [] else [list[0].(read := true)] + MarkAllAsRead(list[1..])
  }

  /** `clearAll()`. */
  function ClearAll(list: seq<Notice>): (r: seq<Notice>)
    ensures r == [] && Bounded(r)
  {
    []
  }

  /** `getUnreadCount()`. */
  function UnreadCount(list: seq<Notice>): (n: nat)
    ensures n <= |list|
    decreases |list|
  {
    if |list| == 0 then 0 else (if list[0].read then 0 else 1) + UnreadCount(list[1..])
  }

  /** Counting agrees with the unread entries one by one: none unread counts zero, all unread counts all. */
  lemma {:induction false} UnreadCountExtremes(list: seq<Notice>)
    ensures UnreadCount(list) == 0 <==> forall i :: 0 <= i < |list| ==> list[i].read
    ensures UnreadCount(list) == |list| <==> forall i :: 0 <= i < |list| ==> !list[i].read
    decreases |list|
  {
    if |list| > 0 {
      UnreadCountExtremes(list[1..]);
      assert forall i :: 1 <= i < |list| ==> list[i] == list[1..][i - 1];
    }
  }

  /** Removing a key never adds unread entries, and removing it again changes nothing. */
  lemma {:induction false} RemoveLaws(list: seq<Notice>, key: string)
    ensures UnreadCount(Remove(list, key)) <= UnreadCount(list)
    ensures Remove(Remove(list, key), key) == Remove(list, key)
    decreases |list|
  {
    if |list| > 0 {
      RemoveLaws(list[1..], key);
      assert Remove(list, key)[1..] == Remove(list[1..], key);
    }
  }

  /** Below the cap, showing adds exactly one unread entry. */
  lemma {:induction false} ShowAddsOneUnread(list: seq<Notice>, c: Config, now: nat)
    requires |list| < MaxKept && KnownKind(c.kind.GetOr(DefaultType))
    ensures Show(list, c, now).Some? && UnreadCount(Show(list, c, now).value.0) == UnreadCount(list) + 1
  {
    var r := Show(list, c, now).value.0;
    assert r[1..] == list;
  }

  /**
   * The unread count at its edges: a kept list never counts more than fifty
   * unread entries; marking all read leaves none; and two notifications shown
   * in the same millisecond share a key, so dismissing one marks both read.
   */
  lemma UnreadLaws(list: seq<Notice>, c1: Config, c2: Config, now: nat)
    ensures Bounded(list) ==> UnreadCount(list) <= MaxKept
    ensures UnreadCount(MarkAllAsRead(list)) == 0
    ensures |list| + 2 <= MaxKept && KnownKind(c1.kind.GetOr(DefaultType)) && KnownKind(c2.kind.GetOr(DefaultType)) ==>
              Show(list, c1, now).Some? && Show(Show(list, c1, now).value.0, c2, now).Some?
              && var d := Remove(Show(Show(list, c1, now).value.0, c2, now).value.0, KeyAt(now));
                 d[0].read && d[1].read
  {
    UnreadCountExtremes(MarkAllAsRead(list));
    if |list| + 2 <= MaxKept && KnownKind(c1.kind.GetOr(DefaultType)) && KnownKind(c2.kind.GetOr(DefaultType)) {
      SameMillisecondShareKey(list, c1, c2, now);
    }
  }

  /** Two notifications shown in the same millisecond share a key. */
  lemma SameMillisecondShareKey(list: seq<Notice>, c1: Config, c2: Config, now: nat)
    requires |list| + 2 <= MaxKept
    requires KnownKind(c1.kind.GetOr(DefaultType)) && KnownKind(c2.kind.GetOr(DefaultType))
    ensures Show(list, c1, now).Some? && Show(Show(list, c1, now).value.0, c2, now).Some?
    ensures var d := Remove(Show(Show(list, c1, now).value.0, c2, now).value.0, KeyAt(now));
            d[0].read && d[1].read
  {
  }

  /** `notifySystemMessage({ title, content, type })`: the type is looked up by its upper-case name, with info as the fallback. */
  function SystemMessageConfig(title: Option<string>, content: Option<string>, kind: Option<string>): (c: Config)
    ensures c.kind.Some? && c.kind.value in NotificationTypes.Values
    ensures kind.None? ==> c.kind == Some(DefaultType)
    ensures kind.Some? && Upper(kind.value) in NotificationTypes ==> c.kind == Some(NotificationTypes[Upper(kind.value)])
    ensures kind.Some? && Upper(kind.value) !in NotificationTypes ==> c.kind == Some(DefaultType)
    ensures c.message == title && c.description == content && c.duration == Some(6.0) && c.placement.None?
  {
    var key := Upper(kind.GetOr(DefaultType));
    var t := if key in NotificationTypes then NotificationTypes[key] else DefaultType;
    assert NotificationTypes["INFO"] == DefaultType;
    Config(Some(t), title, content, Some(6.0), None)
  }

  /** Any spelling of a known type maps to it; an unknown type falls back to info. */
  lemma SystemMessageTypes(title: Option<string>, content: Option<string>)
    ensures SystemMessageConfig(title, content, Some("Warning")).kind == Some("warning")
    ensures SystemMessageConfig(title, content, Some("debug")).kind == Some("info")
  {
    assert Upper("Warning") == "WARNING";
    assert Upper("debug") == "DEBUG";
  }

  /** `notifyCheckComplete`: a success entry naming the paper and its grade, shown for ten seconds. */
  function CheckCompleteConfig(paperTitle: string, grade: string): (c: Config)
    ensures c.kind == Some("success") && c.message == Some("检查完成") && c.duration == Some(10.0)
    ensures c.description.Some? && Contains(c.description.value, paperTitle) && Contains(c.description.value, grade)
  {
    var d := "论文《" + paperTitle + "》检查完成，评级：" + grade;
    ContainsAt(d, paperTitle, 3);
    ContainsAt(d, grade, |d| - |grade|);
    Config(Some("success"), Some("检查完成"), Some(d), Some(10.0), None)
  }
}
