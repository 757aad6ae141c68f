/** internal/api/image_update_poller.go: notifying once about each newer image. One
    project's dedup state, polled tick after tick. */
module ImageUpdates {
  import opened Picks

  /** The digest last notified about, by service; a missing one reads as "". */
  type Marks = map<string, string>

  datatype Change = Change(service: string, digest: bool, to: string)

  /** What one tick finds: whether the preview could be built and the state read and
      written, the changes, the services running, those positively confirmed unchanged, and
      for each change whether a notification about it would go out. */
  datatype Tick = Tick(previewOk: bool, readOk: bool, writeOk: bool, changes: seq<Change>,
                       running: seq<string>, confirmed: set<string>, sends: seq<bool>)

  function MarkOf(marks: Marks, service: string): string {
    if service in marks then marks[service] else ""
  }

  function DigestChanged(changes: seq<Change>): set<string> {
    set i | 0 <= i < |changes| && changes[i].digest :: changes[i].service
  }

  /** A running service confirmed unchanged, and not reported as changed. */
  predicate Resolved(t: Tick, service: string) {
    service in t.running && service in t.confirmed && service !in DigestChanged(t.changes)
  }

  function ClearedMarks(marks: Marks, t: Tick): Marks {
    map s | s in marks :: if Resolved(t, s) then "" else marks[s]
  }

  /** The changes notified about, in order; `known` is the state as read at the start. */
  function Sent(t: Tick, known: Marks, n: nat): seq<Change>
    requires n <= |t.changes| == |t.sends|
  {
    if n == 0 then []
    else
      var c := t.changes[n - 1];
      Sent(t, known, n - 1) + if c.digest && MarkOf(known, c.service) != c.to && t.sends[n - 1] then [c] else []
  }

  function Marked(marks: Marks, sent: seq<Change>): Marks {
    if sent == [] then marks
    else
      var c := sent[|sent| - 1];
      Marked(marks, sent[..|sent| - 1])[c.service := c.to]
  }

  predicate Shaped(t: Tick) {
    |t.sends| == |t.changes|
  }

  /** What a tick notifies about, and the state it leaves. */
  function Notified(marks: Marks, t: Tick): seq<Change>
    requires Shaped(t)
  {
    if !t.previewOk then [] else Sent(t, if t.readOk then marks else map[], |t.changes|)
  }

  function MarksAfter(marks: Marks, t: Tick): Marks
    requires Shaped(t)
  {
    if !t.previewOk || !t.writeOk then marks
    else Marked(if t.readOk then ClearedMarks(marks, t) else marks, Notified(marks, t))
  }

  class Poller {
    var marks: Marks

    constructor ()
      ensures marks == map[]
    {
      marks := map[];
    }

    method SetLastNotified(service: string, digest: string, writeOk: bool)
      modifies this
      ensures marks == if writeOk then old(marks)[service := digest] else old(marks)
    {
      if writeOk { marks := marks[service := digest]; }
    }

    /** Forgets what was notified about services that are as deployed again. */
    method ClearResolved(t: Tick, known: Marks)
      requires known == map[] || known == marks
      modifies this
      ensures marks == if t.writeOk && known != map[] then ClearedMarks(old(marks), t) else old(marks)
    {
      for i := 0 to |t.running|
        invariant marks.Keys == old(marks).Keys
        invariant forall s :: s in marks ==>
          marks[s] == if t.writeOk && known != map[] && s in t.running[..i] && Resolved(t, s) then "" else old(marks)[s]
      {
        var service := t.running[i];
        assert t.running[..i + 1] == t.running[..i] + [service];
        if service in DigestChanged(t.changes) || service !in t.confirmed { continue; }
        if service in known { SetLastNotified(service, "", t.writeOk); }
      }
      assert t.running[..|t.running|] == t.running;
    }

    method Poll(t: Tick) returns (sent: seq<Change>)
      requires Shaped(t)
      modifies this
      ensures sent == Notified(old(marks), t)
      ensures marks == MarksAfter(old(marks), t)
    {
      sent := [];
      if !t.previewOk { return; }
      var known := if t.readOk then marks else map[];
      ClearResolved(t, known);
      ghost var cleared := marks;
      assert known == map[] && t.readOk ==> cleared == ClearedMarks(old(marks), t);
      for i := 0 to |t.changes|
        invariant sent == Sent(t, known, i)
        invariant marks == if t.writeOk then Marked(cleared, sent) else cleared
      {
        var c := t.changes[i];
        if !c.digest { continue; }
        if MarkOf(known, c.service) == c.to { continue; }
        if !t.sends[i] { continue; } // never recorded
        ghost var before := sent;
        sent := sent + [c];
        assert sent[..|sent| - 1] == before;
        SetLastNotified(c.service, c.to, t.writeOk);
      }
    }
  }

  // ----- whole runs -----

  function MarksAt(ticks: seq<Tick>, n: nat): Marks
    requires n <= |ticks| && forall i :: 0 <= i < |ticks| ==> Shaped(ticks[i])
  {
    if n == 0 then map[] else MarksAfter(MarksAt(ticks, n - 1), ticks[n - 1])
  }

  function SentAt(ticks: seq<Tick>, n: nat): seq<Change>
    requires n < |ticks| && forall i :: 0 <= i < |ticks| ==> Shaped(ticks[i])
  {
    Notified(MarksAt(ticks, n), ticks[n])
  }

  predicate WasSent(sent: seq<Change>, service: string, digest: string) {
    exists i :: 0 <= i < |sent| && sent[i].service == service && sent[i].to == digest
  }

  /** At most one digest change per service in a tick, the state store works, and every
      change has its answer. */
  ghost predicate Regular(t: Tick) {
    && Shaped(t) && t.readOk && t.writeOk
    && forall i, j :: 0 <= i < j < |t.changes| && t.changes[i].digest && t.changes[j].digest ==>
         t.changes[i].service != t.changes[j].service
  }

  ghost predicate AllRegular(ticks: seq<Tick>) {
    forall i :: 0 <= i < |ticks| ==> Regular(ticks[i])
  }

  /** The tick reports `digest` for the service and a notification would go out. */
  predicate Offers(t: Tick, service: string, digest: string)
    requires Shaped(t)
  {
    t.previewOk && exists i :: 0 <= i < |t.changes| && t.changes[i] == Change(service, true, digest) && t.sends[i]
  }

  /** The digest an observer of the notifications expects to be remembered: that of the last
      one sent, unless the service was since confirmed unchanged. */
  function Remembered(ticks: seq<Tick>, n: nat, service: string): string
    requires n <= |ticks| && forall i :: 0 <= i < |ticks| ==> Shaped(ticks[i])
  {
    if n == 0 then ""
    else
      var t, sent := ticks[n - 1], SentAt(ticks, n - 1);
      if exists i :: 0 <= i < |sent| && sent[i].service == service then LastTo(sent, service)
      else if t.previewOk && Resolved(t, service) then ""
      else Remembered(ticks, n - 1, service)
  }

  function LastTo(sent: seq<Change>, service: string): string {
    if sent == [] then ""
    else if sent[|sent| - 1].service == service then sent[|sent| - 1].to
    else LastTo(sent[..|sent| - 1], service)
  }

  lemma {:induction false} MarkedIs(marks: Marks, sent: seq<Change>, service: string)
    ensures MarkOf(Marked(marks, sent), service)
            == if exists i :: 0 <= i < |sent| && sent[i].service == service then LastTo(sent, service)
               else MarkOf(marks, service)
  {
    if sent != [] {
      var n := |sent| - 1;
      MarkedIs(marks, sent[..n], service);
      if exists i :: 0 <= i < |sent| && sent[i].service == service {
        var i :| 0 <= i < |sent| && sent[i].service == service;
        if i < n { assert sent[..n][i].service == service; }
      }
      if i :| 0 <= i < n && sent[..n][i].service == service { assert sent[i].service == service; }
    }
  }

  /** The stored state is what the notifications say it should be. */
  lemma {:induction false} MarksAreRemembered(ticks: seq<Tick>, n: nat, service: string)
    requires n <= |ticks| && AllRegular(ticks)
    ensures MarkOf(MarksAt(ticks, n), service) == Remembered(ticks, n, service)
  {
    hide Notified, LastTo, Marked, DigestChanged;
    if n > 0 {
      MarksAreRemembered(ticks, n - 1, service);
      var marks, t := MarksAt(ticks, n - 1), ticks[n - 1];
      assert Regular(t);
      if t.previewOk {
        MarkedIs(ClearedMarks(marks, t), Notified(marks, t), service);
      } else {
        assert Notified(marks, t) == [] by { NothingFromNoPreview(marks, t); }
      }
    }
  }

  /** What a tick leaves on record for a service, whatever fails: the last digest sent for
      it; else, if it runs, is confirmed unchanged and is not reported as changed, nothing;
      else what was there. Nothing changes when the state cannot be written, and nothing is
      cleared when it could not be read. */
  lemma MarkAfterTick(marks: Marks, t: Tick, service: string)
    requires Shaped(t)
    ensures var sent := Notified(marks, t);
            MarkOf(MarksAfter(marks, t), service) ==
            if !t.previewOk || !t.writeOk then MarkOf(marks, service)
            else if exists i :: 0 <= i < |sent| && sent[i].service == service then LastTo(sent, service)
            else if t.readOk && service in t.running && service in t.confirmed
                    && (forall i :: 0 <= i < |t.changes| && t.changes[i].digest ==> t.changes[i].service != service)
            then ""
            else MarkOf(marks, service)
  {
    hide Notified, LastTo, Marked;
    if t.previewOk && t.writeOk {
      MarkedIs(if t.readOk then ClearedMarks(marks, t) else marks, Notified(marks, t), service);
    }
  }

  lemma NothingFromNoPreview(marks: Marks, t: Tick)
    requires Shaped(t) && !t.previewOk
    ensures Notified(marks, t) == []
  {
  }

  lemma {:induction false} SentIs(t: Tick, known: Marks, n: nat, c: Change)
    requires n <= |t.changes| == |t.sends|
    ensures c in Sent(t, known, n) <==>
              c.digest && MarkOf(known, c.service) != c.to && exists i :: 0 <= i < n && t.changes[i] == c && t.sends[i]
  {
    if n > 0 { SentIs(t, known, n - 1, c); }
  }

  lemma {:induction false} SentIsPicked(t: Tick, known: Marks, n: nat) returns (at: seq<nat>)
    requires n <= |t.changes| == |t.sends|
    ensures PickedAt(t.changes[..n], Sent(t, known, n), at)
    ensures forall i :: i in at <==>
              && 0 <= i < n && t.changes[i].digest && t.sends[i]
              && t.changes[i].to != MarkOf(known, t.changes[i].service)
  {
    if n == 0 {
      at := [];
    } else {
      at := SentIsPicked(t, known, n - 1);
      assert t.changes[..n][..n - 1] == t.changes[..n - 1];
      PickNext(t.changes[..n], Sent(t, known, n - 1), at, n - 1);
      var c := t.changes[n - 1];
      if c.digest && MarkOf(known, c.service) != c.to && t.sends[n - 1] { at := at + [n - 1]; }
    }
  }

  /** A tick sends the changes at certain places of its list, each once and in that order:
      those that change a digest, whose notification goes out, and whose digest is not the
      one on record, where no record counts when it could not be read. */
  lemma EachChangeIsSentOnce(marks: Marks, t: Tick) returns (at: seq<nat>)
    requires Shaped(t)
    ensures PickedAt(t.changes, Notified(marks, t), at)
    ensures forall i :: i in at <==>
              && t.previewOk && 0 <= i < |t.changes| && t.changes[i].digest && t.sends[i]
              && t.changes[i].to
                 != if t.readOk && t.changes[i].service in marks then marks[t.changes[i].service] else ""
  {
    at := [];
    if t.previewOk {
      at := SentIsPicked(t, if t.readOk then marks else map[], |t.changes|);
      assert t.changes[..|t.changes|] == t.changes;
    }
  }

  /** With one change per service, a tick sends at most one notification about each. */
  lemma OneNotificationPerService(marks: Marks, t: Tick)
    requires Regular(t)
    ensures var sent := Notified(marks, t); forall i, j :: 0 <= i < j < |sent| ==> sent[i].service != sent[j].service
  {
    var sent := Notified(marks, t);
    hide Notified;
    var at := EachChangeIsSentOnce(marks, t);
    forall i, j | 0 <= i < j < |sent| ensures sent[i].service != sent[j].service {
      assert at[i] in at && at[j] in at;
    }
  }

  lemma WasSentIs(sent: seq<Change>, service: string, digest: string)
    requires forall c :: c in sent ==> c.digest
    ensures WasSent(sent, service, digest) <==> Change(service, true, digest) in sent
  {
    if WasSent(sent, service, digest) {
      var i :| 0 <= i < |sent| && sent[i].service == service && sent[i].to == digest;
      assert sent[i] in sent;
      assert sent[i] == Change(service, true, digest);
    }
  }

  /** A digest is notified in a tick exactly when the tick reports it, the notification
      goes out, and it is not the one an observer of the earlier notifications expects to
      be remembered. */
  lemma NotifiedIffNew(ticks: seq<Tick>, n: nat, service: string, digest: string)
    requires n < |ticks| && AllRegular(ticks)
    ensures WasSent(SentAt(ticks, n), service, digest) <==>
              Offers(ticks[n], service, digest) && digest != Remembered(ticks, n, service)
  {
    hide Remembered, WasSent, Sent, MarksAt, MarkOf;
    var t, marks := ticks[n], MarksAt(ticks, n);
    var c := Change(service, true, digest);
    assert Regular(t);
    MarksAreRemembered(ticks, n, service);
    forall x | x in SentAt(ticks, n) ensures x.digest {
      SentIs(t, marks, |t.changes|, x);
    }
    WasSentIs(SentAt(ticks, n), service, digest);
    SentIs(t, marks, |t.changes|, c);
  }

  /** The k-th tick confirmed the service unchanged or notified another digest of it. */
  ghost predicate Breaks(ticks: seq<Tick>, k: nat, service: string, digest: string)
    requires k < |ticks| && AllRegular(ticks)
  {
    || (ticks[k].previewOk && Resolved(ticks[k], service))
    || exists other :: other != digest && WasSent(SentAt(ticks, k), service, other)
  }

  lemma LastToWasSent(sent: seq<Change>, service: string)
    requires exists i :: 0 <= i < |sent| && sent[i].service == service
    ensures WasSent(sent, service, LastTo(sent, service))
  {
    if sent[|sent| - 1].service != service {
      var i :| 0 <= i < |sent| && sent[i].service == service;
      assert sent[..|sent| - 1][i].service == service;
      LastToWasSent(sent[..|sent| - 1], service);
      var j :| 0 <= j < |sent| - 1 && sent[..|sent| - 1][j].service == service
        && sent[..|sent| - 1][j].to == LastTo(sent, service);
      assert sent[j].service == service;
    }
  }

  /** With one change per service, what was sent for it is one digest. */
  lemma OneSentPerService(ticks: seq<Tick>, n: nat, service: string, digest: string)
    requires n < |ticks| && AllRegular(ticks) && WasSent(SentAt(ticks, n), service, digest)
    ensures Remembered(ticks, n + 1, service) == digest
  {
    hide Sent, MarksAt;
    var sent := SentAt(ticks, n);
    var i :| 0 <= i < |sent| && sent[i].service == service && sent[i].to == digest;
    LastToWasSent(sent, service);
    var last := LastTo(sent, service);
    hide LastTo;
    NotifiedIffNew(ticks, n, service, digest);
    NotifiedIffNew(ticks, n, service, last);
    var t := ticks[n];
    var a :| 0 <= a < |t.changes| && t.changes[a] == Change(service, true, digest) && t.sends[a];
    var b :| 0 <= b < |t.changes| && t.changes[b] == Change(service, true, last) && t.sends[b];
    assert Regular(t);
    assert a == b;
  }

  /** What is remembered stays until something breaks it. */
  lemma {:induction false} StaysRemembered(ticks: seq<Tick>, i: nat, j: nat, service: string, digest: string)
    requires i <= j <= |ticks| && AllRegular(ticks) && Remembered(ticks, i, service) == digest
    requires forall k :: i <= k < j ==> !Breaks(ticks, k, service, digest)
    ensures Remembered(ticks, j, service) == digest
  {
    if i < j {
      StaysRemembered(ticks, i, j - 1, service, digest);
      assert !Breaks(ticks, j - 1, service, digest);
      var sent := SentAt(ticks, j - 1);
      if exists x :: 0 <= x < |sent| && sent[x].service == service {
        LastToWasSent(sent, service);
      }
    }
  }

  /** Two notifications of the same digest of a service always have between them a tick that
      confirmed the service unchanged or notified another digest of it. */
  lemma NeverTwiceWithoutABreak(ticks: seq<Tick>, i: nat, j: nat, service: string, digest: string)
    requires i < j < |ticks| && AllRegular(ticks)
    requires WasSent(SentAt(ticks, i), service, digest) && WasSent(SentAt(ticks, j), service, digest)
    ensures exists k :: i < k < j && Breaks(ticks, k, service, digest)
  {
    hide Remembered, Breaks, WasSent, SentAt;
    OneSentPerService(ticks, i, service, digest);
    NotifiedIffNew(ticks, j, service, digest);
    if forall k :: i < k < j ==> !Breaks(ticks, k, service, digest) {
      StaysRemembered(ticks, i + 1, j, service, digest);
    }
  }

  /** No notification about the service would go out in this tick. */
  ghost predicate NothingGoesOut(t: Tick, service: string)
    requires Shaped(t)
  {
    forall i :: 0 <= i < |t.changes| && t.changes[i].digest && t.changes[i].service == service ==> !t.sends[i]
  }

  /** A tick that neither reports a digest of the service nor confirms it unchanged changes
      nothing for it, and neither does one whose notification fails. */
  lemma InconclusiveTicksChangeNothing(marks: Marks, t: Tick, service: string)
    requires Regular(t) && (!t.previewOk || !Resolved(t, service))
    requires NothingGoesOut(t, service)
    ensures MarkOf(MarksAfter(marks, t), service) == MarkOf(marks, service)
    ensures forall digest :: !WasSent(Notified(marks, t), service, digest)
  {
    var sent := Notified(marks, t);
    forall c | c in sent ensures c.service != service {
      SentIs(t, marks, |t.changes|, c);
    }
    if t.previewOk { MarkedIs(ClearedMarks(marks, t), sent, service); }
  }

  /** A new digest is notified on the first tick where the notification goes out: failed
      attempts before it are not remembered as if they had succeeded. */
  lemma FirstSuccessNotifies(ticks: seq<Tick>, i: nat, n: nat, service: string, digest: string)
    requires i <= n < |ticks| && AllRegular(ticks) && Remembered(ticks, i, service) != digest
    requires forall k :: i <= k < n ==> (!ticks[k].previewOk || !Resolved(ticks[k], service))
    requires forall k :: i <= k < n ==> NothingGoesOut(ticks[k], service)
    requires Offers(ticks[n], service, digest)
    ensures WasSent(SentAt(ticks, n), service, digest)
  {
    hide Remembered, Offers, WasSent, SentAt;
    NotRememberedYet(ticks, i, n, service);
    NotifiedIffNew(ticks, n, service, digest);
  }

  lemma {:induction false} NotRememberedYet(ticks: seq<Tick>, i: nat, n: nat, service: string)
    requires i <= n <= |ticks| && AllRegular(ticks)
    requires forall k :: i <= k < n ==> (!ticks[k].previewOk || !Resolved(ticks[k], service))
    requires forall k :: i <= k < n ==> NothingGoesOut(ticks[k], service)
    ensures Remembered(ticks, n, service) == Remembered(ticks, i, service)
  {
    hide Remembered, Resolved, MarksAfter, NothingGoesOut;
    if i < n {
      NotRememberedYet(ticks, i, n - 1, service);
      assert Regular(ticks[n - 1]);
      InconclusiveTicksChangeNothing(MarksAt(ticks, n - 1), ticks[n - 1], service);
      MarksAreRemembered(ticks, n, service);
      MarksAreRemembered(ticks, n - 1, service);
    }
  }
}
