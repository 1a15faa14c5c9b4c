/** The notification list of the dashboard (src/hooks/useNotifications.ts):
    alerts turned into notifications, and the list operations the hook
    returns. React state is modelled as a value: each operation maps the
    current list to the next one. Every clock reading (`Date.now()`,
    `new Date()`) is a parameter of its own; fetching the alerts is not part
    of this model. */
module Notifications {
  import opened Decimal

  datatype Kind = Info | Success | Warning | Error

  /** One notification; `timestamp` is in milliseconds since the epoch. */
  datatype Notification = Notification(id: string, kind: Kind, title: string, message: string,
                                       timestamp: int, read: bool)

  /** The fields of an analytics alert the hook reads. */
  datatype Alert = Alert(severity: string, category: string, message: string)

  /** `toUpperCase` on the ASCII letters. */
  function ToUpperAscii(s: string): (u: string)
    ensures |u| == |s|
    ensures forall i :: 0 <= i < |s| ==> u[i] == (if 'a' <= s[i] <= 'z' then (s[i] as int - 32) as char else s[i])
    ensures forall i :: 0 <= i < |s| ==> !('a' <= u[i] <= 'z')
  {
    seq(|s|, i requires 0 <= i < |s| => if 'a' <= s[i] <= 'z' then (s[i] as int - 32) as char else s[i])
  }

  /** Upper-casing twice is upper-casing once. */
  lemma ToUpperIdempotent(s: string)
    ensures ToUpperAscii(ToUpperAscii(s)) == ToUpperAscii(s)
  {
  }

  /** `alert-${index}-${Date.now()}`. */
  function AlertId(index: nat, idAt: int): string {
    "alert-" + NatToDecimal(index) + "-" + IntToDecimal(idAt)
  }

  /** The length of the run of digits at the front of `s`. */
  function DigitRun(s: string): (k: nat)
    ensures k <= |s| && AllDigits(s[..k])
  {
    if |s| == 0 || !IsDigit(s[0]) then 0 else 1 + DigitRun(s[1..])
  }

  /** A run of digits followed by a non-digit is read back whole. */
  lemma {:induction false} DigitRunStops(digits: string, rest: string)
    requires AllDigits(digits) && |rest| > 0 && !IsDigit(rest[0])
    ensures DigitRun(digits + rest) == |digits|
    decreases |digits|
  {
    if |digits| > 0 {
      assert (digits + rest)[1..] == digits[1..] + rest;
      DigitRunStops(digits[1..], rest);
    } else {
      assert digits + rest == rest;
    }
  }

  /** Alert ids identify the alert's index and the clock reading: the index
      ends at the first `-` after the `alert-` prefix, because the index has
      only digits, so two ids agree exactly when both parts agree, whichever
      instants the ids were built at. */
  lemma AlertIdsDistinct(i: nat, j: nat, t1: int, t2: int)
    ensures AlertId(i, t1) == AlertId(j, t2) <==> i == j && t1 == t2
  {
    var a1, a2 := NatToDecimal(i), NatToDecimal(j);
    var b1, b2 := IntToDecimal(t1), IntToDecimal(t2);
    if AlertId(i, t1) == AlertId(j, t2) {
      var s := AlertId(i, t1);
      assert s[6..] == a1 + ("-" + b1) && s[6..] == a2 + ("-" + b2) by {
        AlertIdTail(i, t1);
        AlertIdTail(j, t2);
      }
      SplitAfterDigits(a1, b1, a2, b2);
      NatRoundTrip(i);
      NatRoundTrip(j);
      IntToDecimalInjective(t1, t2);
    }
  }

  /** After the six characters of `alert-` come the index, a dash and the reading. */
  lemma AlertIdTail(index: nat, idAt: int)
    ensures |AlertId(index, idAt)| >= 6
    ensures AlertId(index, idAt)[6..] == NatToDecimal(index) + ("-" + IntToDecimal(idAt))
  {
    var a, b := NatToDecimal(index), IntToDecimal(idAt);
    assert AlertId(index, idAt) == "alert-" + (a + ("-" + b));
  }

  /** A run of digits, a dash and a rest splits back into the run and the rest. */
  lemma SplitAfterDigits(a1: string, b1: string, a2: string, b2: string)
    requires AllDigits(a1) && AllDigits(a2)
    requires a1 + ("-" + b1) == a2 + ("-" + b2)
    ensures a1 == a2 && b1 == b2
  {
    var s := a1 + ("-" + b1);
    DigitRunStops(a1, "-" + b1);
    DigitRunStops(a2, "-" + b2);
    assert a1 == s[..|a1|] == a2;
    assert b1 == s[|a1| + 1..] == b2;
  }

  /** The two clock readings made while converting one alert: `Date.now()`
      for its id and `new Date()` for its timestamp. */
  datatype Readings = Readings(idAt: int, stampAt: int)

  /** One alert as a notification: an error for a high-severity alert, a
      warning otherwise, and unread. */
  function FromAlert(a: Alert, index: nat, clock: Readings): (n: Notification)
    ensures n.kind == Error <==> a.severity == "high"
    ensures n.kind == Warning <==> a.severity != "high"
    ensures !n.read && n.timestamp == clock.stampAt && n.message == a.message
    ensures n.id == AlertId(index, clock.idAt)
    ensures n.title == ToUpperAscii(a.category) + " Alert"
  {
    Notification(AlertId(index, clock.idAt), if a.severity == "high" then Error else Warning,
                 ToUpperAscii(a.category) + " Alert", a.message, clock.stampAt, false)
  }

  /** `alerts.map(...)`, with the clock readings made for each alert. */
  function FromAlerts(alerts: seq<Alert>, clock: seq<Readings>): (ns: seq<Notification>)
    requires |clock| == |alerts|
    ensures |ns| == |alerts|
    ensures forall i :: 0 <= i < |alerts| ==> ns[i] == FromAlert(alerts[i], i, clock[i])
  {
    seq(|alerts|, i requires 0 <= i < |alerts| => FromAlert(alerts[i], i, clock[i]))
  }

  /** The two demonstration notifications appended after the alerts: a
      success half an hour before its clock reading and unread, and an info
      two hours before its own reading and read. */
  function Samples(firstAt: int, secondAt: int): (ns: seq<Notification>)
    ensures |ns| == 2 && !ns[0].read && ns[1].read
    ensures ns[0].timestamp == firstAt - 1800000 && ns[1].timestamp == secondAt - 7200000
    ensures ns[0].id == "sample-1" && ns[1].id == "sample-2"
  {
    [ Notification("sample-1", Success, "Sales Target Achieved", "Monthly sales target exceeded by 15%",
                   firstAt - 1000 * 60 * 30, false),
      Notification("sample-2", Info, "New Report Available", "Weekly analytics report is ready for review",
                   secondAt - 1000 * 60 * 60 * 2, true) ]
  }

  /** The list after alerts arrive: the alerts' notifications, then the samples. */
  function Refresh(alerts: seq<Alert>, clock: seq<Readings>, firstAt: int, secondAt: int): (ns: seq<Notification>)
    requires |clock| == |alerts|
    ensures |ns| == |alerts| + 2
    ensures ns[..|alerts|] == FromAlerts(alerts, clock) && ns[|alerts|..] == Samples(firstAt, secondAt)
  {
    FromAlerts(alerts, clock) + Samples(firstAt, secondAt)
  }

  /** Every notification of a fresh list has its own id, whatever the clock
      read for each alert. */
  lemma RefreshIdsDistinct(alerts: seq<Alert>, clock: seq<Readings>, firstAt: int, secondAt: int, i: int, j: int)
    requires |clock| == |alerts|
    requires 0 <= i < j < |alerts| + 2
    ensures Refresh(alerts, clock, firstAt, secondAt)[i].id != Refresh(alerts, clock, firstAt, secondAt)[j].id
  {
    var ns := Refresh(alerts, clock, firstAt, secondAt);
    var fa, sm := FromAlerts(alerts, clock), Samples(firstAt, secondAt);
    assert ns == fa + sm;
    if j < |alerts| {
      assert ns[i] == fa[i] && ns[j] == fa[j];
      AlertIdsDistinct(i, j, clock[i].idAt, clock[j].idAt);
    } else if i < |alerts| {
      assert ns[i] == fa[i] && ns[j] == sm[j - |alerts|];
      AlertIdTail(i, clock[i].idAt);
      assert ns[i].id[0] == 'a';
      assert ns[j].id[0] == 's';
    } else {
      assert ns[i] == sm[0] && ns[j] == sm[1];
      assert ns[i].id[7] == '1' && ns[j].id[7] == '2';
    }
  }

  /** `unreadCount`: the number of notifications not yet read. */
  function UnreadCount(ns: seq<Notification>): (c: nat)
    ensures c <= |ns|
  {
    if |ns| == 0 then 0 else (if ns[0].read then 0 else 1) + UnreadCount(ns[1..])
  }

  lemma {:induction false} UnreadCountAppend(a: seq<Notification>, b: seq<Notification>)
    ensures UnreadCount(a + b) == UnreadCount(a) + UnreadCount(b)
    decreases |a|
  {
    if |a| > 0 {
      assert (a + b)[1..] == a[1..] + b;
      UnreadCountAppend(a[1..], b);
    } else {
      assert a + b == b;
    }
  }

  /** No notification is counted unless it is unread, and each unread one is. */
  lemma {:induction false} UnreadCountZero(ns: seq<Notification>)
    ensures UnreadCount(ns) == 0 <==> forall i :: 0 <= i < |ns| ==> ns[i].read
    decreases |ns|
  {
    if |ns| > 0 {
      UnreadCountZero(ns[1..]);
      assert forall i :: 1 <= i < |ns| ==> ns[i] == ns[1..][i - 1];
    }
  }

  /** A fresh list has every alert and the first sample unread. */
  lemma RefreshUnreadCount(alerts: seq<Alert>, clock: seq<Readings>, firstAt: int, secondAt: int)
    requires |clock| == |alerts|
    ensures UnreadCount(Refresh(alerts, clock, firstAt, secondAt)) == |alerts| + 1
  {
    AlertsUnread(alerts, clock);
    UnreadCountAppend(FromAlerts(alerts, clock), Samples(firstAt, secondAt));
    var s := Samples(firstAt, secondAt);
    assert s[1..][1..] == [];
  }

  lemma AlertsUnread(alerts: seq<Alert>, clock: seq<Readings>)
    requires |clock| == |alerts|
    ensures UnreadCount(FromAlerts(alerts, clock)) == |alerts|
  {
    UnreadCountFull(FromAlerts(alerts, clock));
  }

  /** Every notification is counted exactly when none is read. */
  lemma {:induction false} UnreadCountFull(ns: seq<Notification>)
    ensures UnreadCount(ns) == |ns| <==> forall i :: 0 <= i < |ns| ==> !ns[i].read
    decreases |ns|
  {
    if |ns| > 0 {
      UnreadCountFull(ns[1..]);
      assert forall i :: 1 <= i < |ns| ==> ns[i] == ns[1..][i - 1];
    }
  }

  /** `markAsRead(id)`: the notifications with that id become read; nothing
      else changes. */
  function MarkAsRead(ns: seq<Notification>, id: string): (r: seq<Notification>)
    ensures |r| == |ns|
    ensures forall i :: 0 <= i < |ns| ==> r[i] == ns[i].(read := ns[i].read || ns[i].id == id)
  {
    seq(|ns|, i requires 0 <= i < |ns| => if ns[i].id == id then ns[i].(read := true) else ns[i])
  }

  lemma MarkAsReadIdempotent(ns: seq<Notification>, id: string)
    ensures MarkAsRead(MarkAsRead(ns, id), id) == MarkAsRead(ns, id)
  {
  }

  /** Marking two ids gives the same list in either order. */
  lemma MarkAsReadCommutes(ns: seq<Notification>, a: string, b: string)
    ensures MarkAsRead(MarkAsRead(ns, a), b) == MarkAsRead(MarkAsRead(ns, b), a)
  {
  }

  /** Marking an id no notification has changes nothing. */
  lemma MarkAsReadAbsent(ns: seq<Notification>, id: string)
    requires forall i :: 0 <= i < |ns| ==> ns[i].id != id
    ensures MarkAsRead(ns, id) == ns
  {
  }

  /** The number of unread notifications with the given id. */
  function UnreadWithId(ns: seq<Notification>, id: string): nat {
    if |ns| == 0 then 0 else (if !ns[0].read && ns[0].id == id then 1 else 0) + UnreadWithId(ns[1..], id)
  }

  /** Marking an id read lowers the unread count by the unread notifications
      with that id. */
  lemma {:induction false} MarkAsReadUnreadCount(ns: seq<Notification>, id: string)
    ensures UnreadCount(MarkAsRead(ns, id)) == UnreadCount(ns) - UnreadWithId(ns, id)
    decreases |ns|
  {
    if |ns| > 0 {
      assert MarkAsRead(ns, id)[1..] == MarkAsRead(ns[1..], id);
      MarkAsReadUnreadCount(ns[1..], id);
    }
  }

  /** `markAllAsRead`: every notification becomes read; nothing else changes. */
  function MarkAllAsRead(ns: seq<Notification>): (r: seq<Notification>)
    ensures |r| == |ns|
    ensures forall i :: 0 <= i < |ns| ==> r[i] == ns[i].(read := true)
    ensures UnreadCount(r) == 0
  {
    var r := seq(|ns|, i requires 0 <= i < |ns| => ns[i].(read := true));
    UnreadCountZero(r);
    r
  }

  /** After marking all read, marking one read changes nothing, and marking
      one read first makes no difference to marking all. */
  lemma MarkAllAbsorbs(ns: seq<Notification>, id: string)
    ensures MarkAsRead(MarkAllAsRead(ns), id) == MarkAllAsRead(ns)
    ensures MarkAllAsRead(MarkAsRead(ns, id)) == MarkAllAsRead(ns)
  {
  }

  /** `deleteNotification(id)`: the notifications with another id, in their order. */
  function Delete(ns: seq<Notification>, id: string): (r: seq<Notification>)
    ensures |r| <= |ns|
    ensures forall i :: 0 <= i < |r| ==> r[i].id != id
    ensures forall n :: n in r <==> n in ns && n.id != id
  {
    if |ns| == 0 then []
    else (if ns[0].id == id then [] else [ns[0]]) + Delete(ns[1..], id)
  }

  /** Deleting works piecewise: the survivors of a concatenation are the
      survivors of each part, in order. */
  lemma {:induction false} DeleteAppend(a: seq<Notification>, b: seq<Notification>, id: string)
    ensures Delete(a + b, id) == Delete(a, id) + Delete(b, id)
    decreases |a|
  {
    if |a| > 0 {
      assert (a + b)[1..] == a[1..] + b;
      DeleteAppend(a[1..], b, id);
    } else {
      assert a + b == b;
    }
  }

  /** Deleting an id no notification has changes nothing. */
  lemma {:induction false} DeleteAbsent(ns: seq<Notification>, id: string)
    requires forall i :: 0 <= i < |ns| ==> ns[i].id != id
    ensures Delete(ns, id) == ns
    decreases |ns|
  {
    if |ns| > 0 {
      DeleteAbsent(ns[1..], id);
    }
  }

  /** The number of notifications with the given id. */
  function CountId(ns: seq<Notification>, id: string): nat {
    if |ns| == 0 then 0 else (if ns[0].id == id then 1 else 0) + CountId(ns[1..], id)
  }

  /** Deleting removes exactly the notifications with that id. */
  lemma {:induction false} DeleteLength(ns: seq<Notification>, id: string)
    ensures |Delete(ns, id)| == |ns| - CountId(ns, id)
    decreases |ns|
  {
    if |ns| > 0 {
      DeleteLength(ns[1..], id);
    }
  }

  lemma DeleteIdempotent(ns: seq<Notification>, id: string)
    ensures Delete(Delete(ns, id), id) == Delete(ns, id)
  {
    DeleteAbsent(Delete(ns, id), id);
  }

  /** Deleting one id and marking another read can happen in either order. */
  lemma {:induction false} DeleteMarkCommute(ns: seq<Notification>, deleted: string, marked: string)
    ensures Delete(MarkAsRead(ns, marked), deleted) == MarkAsRead(Delete(ns, deleted), marked)
    decreases |ns|
  {
    if |ns| > 0 {
      var m := MarkAsRead(ns, marked);
      MarkAsReadSplit(ns, marked);
      DeleteMarkCommute(ns[1..], deleted, marked);
      var head := if ns[0].id == deleted then [] else [ns[0]];
      MarkAsReadAppend(head, Delete(ns[1..], deleted), marked);
      assert Delete(m, deleted) == (if m[0].id == deleted then [] else [m[0]]) + Delete(m[1..], deleted);
    }
  }

  /** Marking works on the head and the tail separately. */
  lemma MarkAsReadSplit(ns: seq<Notification>, id: string)
    requires |ns| > 0
    ensures MarkAsRead(ns, id)[1..] == MarkAsRead(ns[1..], id)
    ensures MarkAsRead(ns, id)[0] == MarkAsRead([ns[0]], id)[0]
  {
  }

  /** Marking works piecewise on a concatenation. */
  lemma MarkAsReadAppend(a: seq<Notification>, b: seq<Notification>, id: string)
    ensures MarkAsRead(a + b, id) == MarkAsRead(a, id) + MarkAsRead(b, id)
  {
    assert forall i :: 0 <= i < |a + b| ==> MarkAsRead(a + b, id)[i] == (MarkAsRead(a, id) + MarkAsRead(b, id))[i];
  }

  /** `clearAll`: the empty list, whatever it held. */
  function ClearAll(ns: seq<Notification>): (r: seq<Notification>)
    ensures |r| == 0 && UnreadCount(r) == 0
  {
    []
  }
}
