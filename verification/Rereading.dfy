/** Reading transcripts again: as they grow, as copies of one another, and
    unchanged. Connects the parser, the attribution and the device's ledger. */
module Rereading {
  import opened Records
  import opened ClientLedger
  import Transcripts
  import SignIns
  import Rollouts

  // ------------------------------------------------------------ highest output

  ghost predicate OnAccount(es: seq<UsageEvent>, key: string, account: string) {
    forall e :: e in es && e.dedupeKey == key ==> e.accountRef == account
  }

  ghost predicate RowOnAccount(s: Local, key: string, account: string) {
    key in s.events ==> s.events[key].accountRef == account
  }

  /** An output the request was stored with before, or was read with since. */
  ghost predicate Offered(before: Local, es: seq<UsageEvent>, key: string, output: int) {
    || (key in before.events && before.events[key].tokens.output == output)
    || exists e :: e in es && e.dedupeKey == key && e.tokens.output == output
  }

  lemma OfferedConcat(before: Local, a: seq<UsageEvent>, b: seq<UsageEvent>, key: string, output: int)
    ensures Offered(before, a + b, key, output) <==>
            Offered(before, a, key, output) || exists e :: e in b && e.dedupeKey == key && e.tokens.output == output
  {
  }

  /** The stored output is the highest offered, and there is one when any was. */
  ghost predicate KeepsHighest(before: Local, after: Local, es: seq<UsageEvent>, key: string) {
    && (key in after.events ==> Offered(before, es, key, after.events[key].tokens.output))
    && forall output :: Offered(before, es, key, output) ==>
        key in after.events && output <= after.events[key].tokens.output
  }

  lemma SaveKeepsHighest(before: Local, s: Local, es: seq<UsageEvent>, e: UsageEvent, key: string, account: string)
    requires KeepsHighest(before, s, es, key) && RowOnAccount(s, key, account) && OnAccount([e], key, account)
    ensures KeepsHighest(before, SaveEvent(s, e).0, es + [e], key) && RowOnAccount(SaveEvent(s, e).0, key, account)
  {
    var after := SaveEvent(s, e).0;
    SavedRow(s, e, key, account);
    hide SaveEvent, Offered;
    forall output ensures Offered(before, es + [e], key, output) <==>
                          Offered(before, es, key, output) || (e.dedupeKey == key && e.tokens.output == output)
    {
      OfferedConcat(before, es, [e], key, output);
      assert e in [e];
    }
  }

  /** What saving an event leaves of a row on its account. */
  lemma SavedRow(s: Local, e: UsageEvent, key: string, account: string)
    requires RowOnAccount(s, key, account) && OnAccount([e], key, account)
    ensures RowOnAccount(SaveEvent(s, e).0, key, account)
    ensures var rows := SaveEvent(s, e).0.events;
            if key != e.dedupeKey
                then (key in rows <==> key in s.events) && (key in rows ==> rows[key] == s.events[key])
            else key in rows && rows[key].tokens.output
                                == if key in s.events then Max(s.events[key].tokens.output, e.tokens.output)
                                    else e.tokens.output
  {
    assert e in [e];
  }

  lemma {:induction false} SavesKeepHighest(s: Local, es: seq<UsageEvent>, key: string, account: string)
    requires OnAccount(es, key, account) && RowOnAccount(s, key, account)
    ensures KeepsHighest(s, SaveEvents(s, es).0, es, key) && RowOnAccount(SaveEvents(s, es).0, key, account)
  {
    if es != [] {
      var n := |es| - 1;
      SavesKeepHighest(s, es[..n], key, account);
      assert es == es[..n] + [es[n]];
      hide KeepsHighest;
      SaveKeepsHighest(s, SaveEvents(s, es[..n]).0, es[..n], es[n], key, account);
    }
  }

  lemma {:induction false} ReadingsKeepEvents(s: Local, snaps: seq<Snapshot>)
    ensures SaveReadings(s, snaps).0.events == s.events
  {
    if snaps != [] {
      ReadingsKeepEvents(s, snaps[..|snaps| - 1]);
    }
  }

  lemma {:induction false} LimitsKeepEvents(s: Local, ls: seq<LimitEvent>)
    ensures SaveLimits(s, ls).0.events == s.events
  {
    if ls != [] {
      LimitsKeepEvents(s, ls[..|ls| - 1]);
    }
  }

  function IngestAll(s: Local, scans: seq<Scan>): Local {
    if scans == [] then s else IngestScan(IngestAll(s, scans[..|scans| - 1]), scans[|scans| - 1]).0
  }

  function AllEvents(scans: seq<Scan>): seq<UsageEvent> {
    if scans == [] then [] else AllEvents(scans[..|scans| - 1]) + scans[|scans| - 1].events
  }

  lemma {:induction false} InAllEvents(scans: seq<Scan>, e: UsageEvent)
    ensures e in AllEvents(scans) <==> exists i :: 0 <= i < |scans| && e in scans[i].events
  {
    if scans != [] {
      var n := |scans| - 1;
      InAllEvents(scans[..n], e);
      assert forall i :: 0 <= i < n ==> scans[..n][i] == scans[i];
    }
  }

  lemma HighestThrough(before: Local, s: Local, after: Local, a: seq<UsageEvent>, b: seq<UsageEvent>, key: string)
    requires KeepsHighest(before, s, a, key) && KeepsHighest(s, after, b, key)
    ensures KeepsHighest(before, after, a + b, key)
  {
    if key in after.events {
      OfferedConcat(before, a, b, key, after.events[key].tokens.output);
    }
    forall output | Offered(before, a + b, key, output)
      ensures key in after.events && output <= after.events[key].tokens.output
    {
      OfferedConcat(before, a, b, key, output);
      if Offered(before, a, key, output) {
        assert Offered(s, b, key, s.events[key].tokens.output);
      } else {
        assert Offered(s, b, key, output);
      }
    }
  }

  lemma {:induction false} ScansKeepHighest(s: Local, scans: seq<Scan>, key: string, account: string)
    requires forall i :: 0 <= i < |scans| ==> OnAccount(scans[i].events, key, account)
    requires RowOnAccount(s, key, account)
    ensures KeepsHighest(s, IngestAll(s, scans), AllEvents(scans), key)
        && RowOnAccount(IngestAll(s, scans), key, account)
  {
    if scans != [] {
      var n := |scans| - 1;
      ScansKeepHighest(s, scans[..n], key, account);
      var s1 := IngestAll(s, scans[..n]);
      SavesKeepHighest(s1, scans[n].events, key, account);
      var s2 := SaveEvents(s1, scans[n].events).0;
      var s3 := SaveReadings(s2, scans[n].snapshots).0;
      ReadingsKeepEvents(s2, scans[n].snapshots);
      LimitsKeepEvents(s3, scans[n].limits);
      assert IngestAll(s, scans).events == s2.events;
      hide SaveEvents, SaveReadings, SaveLimits, IngestScan, IngestAll;
      assert KeepsHighest(s1, IngestAll(s, scans), scans[n].events, key);
      HighestThrough(s, s1, IngestAll(s, scans), AllEvents(scans[..n]), scans[n].events, key);
    }
  }

  // -------------------------------------------------------- through the parser

  /** A transcript as one scan read it: its lines, its events, whose they are,
      and what was ingested. */
  datatype File = File(raws: seq<Transcripts.Raw>, parsed: seq<UsageEvent>, context: SignIns.Context, scan: Scan)

  ghost predicate WasRead(f: File, rules: Transcripts.Rules) {
    Transcripts.AreEvents(f.parsed, f.raws, rules) && SignIns.AreAttributed(f.scan.events, f.parsed, f.context)
  }

  /** Every copy of the response resolves to the account. */
  ghost predicate ResolvesTo(f: File, key: string, account: string) {
    forall e, r :: e in f.parsed && e.dedupeKey == key && SignIns.IsRefOf(r, e, f.context) ==> r == Some(account)
  }

  /** The events of the response that were ingested are the parsed ones, on the account. */
  lemma {:induction false} AttributedCopies(out: seq<UsageEvent>, parsed: seq<UsageEvent>, c: SignIns.Context,
                                            key: string, account: string)
    requires SignIns.AreAttributed(out, parsed, c)
    requires forall e, r :: e in parsed && e.dedupeKey == key && SignIns.IsRefOf(r, e, c) ==> r == Some(account)
    ensures OnAccount(out, key, account)
    ensures forall e :: e in parsed && e.dedupeKey == key ==>
        exists a :: a in out && a.dedupeKey == key && a.tokens == e.tokens
    ensures forall a :: a in out && a.dedupeKey == key ==>
        exists e :: e in parsed && e.dedupeKey == key && a.tokens == e.tokens
  {
    hide SignIns.IsRefOf;
    if parsed != [] {
      var n, m := |parsed| - 1, |out| - 1;
      assert parsed == parsed[..n] + [parsed[n]];
      if SignIns.IsRefOf(None, parsed[n], c) && SignIns.AreAttributed(out, parsed[..n], c) {
        assert parsed[n].dedupeKey != key;
        AttributedCopies(out, parsed[..n], c, key, account);
      } else {
        assert out[m].tokens == parsed[n].tokens && out[m].dedupeKey == parsed[n].dedupeKey;
        assert out[m].dedupeKey == key ==> out[m].accountRef == account;
        assert SignIns.AreAttributed(out[..m], parsed[..n], c);
        AttributedCopies(out[..m], parsed[..n], c, key, account);
        hide SignIns.AreAttributed;
        assert out == out[..m] + [out[m]];
      }
    }
  }

  /** A line of the response has the output. */
  ghost predicate OnLine(f: File, key: string, output: int) {
    exists i :: 0 <= i < |f.raws| && Transcripts.Has(f.raws[i], key) && Transcripts.Output(f.raws[i]) == output
  }

  /** The highest output on any line of the response in any of the files. */
  ghost predicate HighestOfLines(most: int, files: seq<File>, key: string) {
    && (forall f, output :: 0 <= f < |files| && OnLine(files[f], key, output) ==> output <= most)
    && exists f :: 0 <= f < |files| && OnLine(files[f], key, most)
  }

  function ScansOf(files: seq<File>): (scans: seq<Scan>)
    ensures |scans| == |files| && forall i :: 0 <= i < |scans| ==> scans[i] == files[i].scan
  {
    seq(|files|, i requires 0 <= i < |files| => files[i].scan)
  }

  /** An ingested event of the response has the output, or more. */
  ghost predicate Ingested(f: File, key: string, output: int) {
    exists a :: a in f.scan.events && a.dedupeKey == key && output <= a.tokens.output
  }

  lemma LineIsParsed(f: File, rules: Transcripts.Rules, key: string, output: int) returns (e: UsageEvent)
    requires WasRead(f, rules) && OnLine(f, key, output)
    ensures e in f.parsed && e.dedupeKey == key && output <= e.tokens.output
  {
    hide SignIns.AreAttributed, Transcripts.Key, Transcripts.StartsAt, Transcripts.IsResponse;
    assert Transcripts.HasKey(f.parsed, key);
    var k :| 0 <= k < |f.parsed| && f.parsed[k].dedupeKey == key;
    assert Transcripts.IsEventOf(f.parsed[k], f.raws, rules);
    e := f.parsed[k];
  }

  /** What one file says of the response: lines and ingested events agree on the highest output. */
  lemma FileAgrees(f: File, rules: Transcripts.Rules, key: string, account: string)
    requires WasRead(f, rules) && ResolvesTo(f, key, account)
    ensures OnAccount(f.scan.events, key, account)
    ensures forall output :: OnLine(f, key, output) ==> Ingested(f, key, output)
    ensures forall a :: a in f.scan.events && a.dedupeKey == key ==> OnLine(f, key, a.tokens.output)
  {
    AttributedCopies(f.scan.events, f.parsed, f.context, key, account);
    hide SignIns.AreAttributed, ResolvesTo, Transcripts.StartsAt, OnLine, OnAccount;
    forall output | OnLine(f, key, output) ensures Ingested(f, key, output) {
      var e := LineIsParsed(f, rules, key, output);
    }
    hide Ingested;
    forall a | a in f.scan.events && a.dedupeKey == key ensures OnLine(f, key, a.tokens.output) {
      var e :| e in f.parsed && e.dedupeKey == key && a.tokens == e.tokens;
      ParsedIsOnLine(f, rules, e);
    }
  }

  lemma ParsedIsOnLine(f: File, rules: Transcripts.Rules, e: UsageEvent)
    requires WasRead(f, rules) && e in f.parsed
    ensures OnLine(f, e.dedupeKey, e.tokens.output)
  {
    hide SignIns.AreAttributed, Transcripts.Key, Transcripts.StartsAt, Transcripts.IsResponse;
    var k :| 0 <= k < |f.parsed| && f.parsed[k] == e;
    assert Transcripts.IsEventOf(f.parsed[k], f.raws, rules);
  }

  /** Reading transcripts again is harmless: whatever prefixes and copies are
      read, in whatever order, a response is stored once, on its account, with
      the highest output on any of its lines in any of them. */
  lemma RereadingKeepsHighest(s: Local, files: seq<File>, rules: Transcripts.Rules, key: string, account: string)
    requires key !in s.events
    requires forall f :: 0 <= f < |files| ==> WasRead(files[f], rules) && ResolvesTo(files[f], key, account)
    ensures var rows := IngestAll(s, ScansOf(files)).events;
            if key in rows then rows[key].accountRef == account && HighestOfLines(rows[key].tokens.output, files, key)
            else forall f, output :: 0 <= f < |files| ==> !OnLine(files[f], key, output)
  {
    var scans := ScansOf(files);
    var after := IngestAll(s, scans);
    hide WasRead, ResolvesTo, OnLine, IngestAll;
    forall f | 0 <= f < |files| ensures OnAccount(scans[f].events, key, account) {
      FileAgrees(files[f], rules, key, account);
    }
    ScansKeepHighest(s, scans, key, account);
    hide OnAccount, AllEvents;
    forall f, output | 0 <= f < |files| && OnLine(files[f], key, output)
      ensures key in after.events && output <= after.events[key].tokens.output
    {
      LineIsStored(s, files, rules, key, account, f, output);
    }
    if key in after.events {
      StoredIsOnLine(s, files, rules, key, account, after.events[key].tokens.output);
    }
  }

  lemma LineIsStored(s: Local, files: seq<File>, rules: Transcripts.Rules, key: string, account: string, f: nat,
                     output: int)
    requires f < |files| && WasRead(files[f], rules) && ResolvesTo(files[f], key, account)
        && OnLine(files[f], key, output)
    ensures exists o :: output <= o && Offered(s, AllEvents(ScansOf(files)), key, o)
  {
    hide WasRead, ResolvesTo, OnLine, AllEvents;
    FileAgrees(files[f], rules, key, account);
    var a :| a in files[f].scan.events && a.dedupeKey == key && output <= a.tokens.output;
    assert a in ScansOf(files)[f].events;
    InAllEvents(ScansOf(files), a);
    assert Offered(s, AllEvents(ScansOf(files)), key, a.tokens.output);
  }

  lemma StoredIsOnLine(s: Local, files: seq<File>, rules: Transcripts.Rules, key: string, account: string, output: int)
    requires forall f :: 0 <= f < |files| ==> WasRead(files[f], rules) && ResolvesTo(files[f], key, account)
    requires key !in s.events && Offered(s, AllEvents(ScansOf(files)), key, output)
    ensures exists f :: 0 <= f < |files| && OnLine(files[f], key, output)
  {
    hide WasRead, ResolvesTo, OnLine, AllEvents;
    var a :| a in AllEvents(ScansOf(files)) && a.dedupeKey == key && a.tokens.output == output;
    InAllEvents(ScansOf(files), a);
    var f :| 0 <= f < |files| && a in ScansOf(files)[f].events;
    FileAgrees(files[f], rules, key, account);
  }

  // ----------------------------------------------------------- reading unchanged

  /** The ledger has all of an event. */
  predicate Absorbed(s: Local, e: UsageEvent) {
    e.dedupeKey in s.events && !Takes(s.events[e.dedupeKey], e)
  }

  lemma SaveAbsorbs(s: Local, e: UsageEvent)
    ensures Absorbed(SaveEvent(s, e).0, e)
    ensures Absorbed(s, e) ==> SaveEvent(s, e) == (s, 0)
  {
  }

  lemma SaveKeepsOthers(s: Local, e: UsageEvent, other: UsageEvent)
    requires other.dedupeKey != e.dedupeKey
    ensures Absorbed(SaveEvent(s, e).0, other) <==> Absorbed(s, other)
  {
    hide Takes, Merge, FirstRow;
  }

  lemma {:induction false} SavesAbsorb(s: Local, es: seq<UsageEvent>, e: UsageEvent)
    requires DistinctKeys(es) && e in es
    ensures Absorbed(SaveEvents(s, es).0, e)
  {
    var n := |es| - 1;
    hide SaveEvent, Absorbed;
    var s1 := SaveEvents(s, es[..n]).0;
    if e == es[n] {
      SaveAbsorbs(s1, e);
    } else {
      var k :| 0 <= k < n && es[k] == e;
      assert es[..n][k] == e;
      SavesAbsorb(s, es[..n], e);
      SaveKeepsOthers(s1, es[n], e);
    }
  }

  lemma {:induction false} AbsorbedAgain(s: Local, es: seq<UsageEvent>)
    requires forall e :: e in es ==> Absorbed(s, e)
    ensures SaveEvents(s, es) == (s, 0)
  {
    if es != [] {
      var n := |es| - 1;
      AbsorbedAgain(s, es[..n]);
      assert es[n] in es;
      SaveAbsorbs(s, es[n]);
    }
  }

  lemma {:induction false} ReadingsStored(s: Local, snaps: seq<Snapshot>)
    ensures forall snap :: snap in snaps ==> KeyOf(snap) in SaveReadings(s, snaps).0.readings
    ensures SaveReadings(s, snaps).0.limits == s.limits
  {
    if snaps != [] {
      ReadingsStored(s, snaps[..|snaps| - 1]);
      assert snaps == snaps[..|snaps| - 1] + [snaps[|snaps| - 1]];
    }
  }

  lemma {:induction false} ReadingsAgain(s: Local, snaps: seq<Snapshot>)
    requires forall snap :: snap in snaps ==> KeyOf(snap) in s.readings
    ensures SaveReadings(s, snaps) == (s, 0)
  {
    if snaps != [] {
      assert snaps[|snaps| - 1] in snaps;
      ReadingsAgain(s, snaps[..|snaps| - 1]);
    }
  }

  lemma {:induction false} LimitsStored(s: Local, ls: seq<LimitEvent>)
    ensures forall l :: l in ls ==> l.dedupeKey in SaveLimits(s, ls).0.limits
    ensures SaveLimits(s, ls).0.readings == s.readings
  {
    if ls != [] {
      LimitsStored(s, ls[..|ls| - 1]);
      assert ls == ls[..|ls| - 1] + [ls[|ls| - 1]];
    }
  }

  lemma {:induction false} LimitsAgain(s: Local, ls: seq<LimitEvent>)
    requires forall l :: l in ls ==> l.dedupeKey in s.limits
    ensures SaveLimits(s, ls) == (s, 0)
  {
    if ls != [] {
      assert ls[|ls| - 1] in ls;
      LimitsAgain(s, ls[..|ls| - 1]);
    }
  }

  /** Ingesting a file again changes no table and queues nothing, as long as
      its events have distinct keys. */
  lemma IngestAgain(s: Local, scan: Scan)
    requires DistinctKeys(scan.events)
    ensures var once := IngestScan(s, scan).0;
            IngestScan(once, scan) == (once, 0)
  {
    var s1 := SaveEvents(s, scan.events).0;
    var s2 := SaveReadings(s1, scan.snapshots).0;
    var s3 := SaveLimits(s2, scan.limits).0;
    var once := IngestScan(s, scan).0;
    forall e | e in scan.events ensures Absorbed(s1, e) {
      SavesAbsorb(s, scan.events, e);
    }
    ReadingsKeepEvents(s1, scan.snapshots);
    LimitsKeepEvents(s2, scan.limits);
    ReadingsStored(s1, scan.snapshots);
    LimitsStored(s2, scan.limits);
    assert once == s3.(files := s3.files[scan.path := scan.state]);
    hide SaveEvents, SaveReadings, SaveLimits;
    assert forall e :: e in scan.events ==> Absorbed(once, e);
    AbsorbedAgain(once, scan.events);
    ReadingsAgain(once, scan.snapshots);
    LimitsAgain(once, scan.limits);
    assert once.files[scan.path := scan.state] == once.files;
  }

  lemma {:induction false} AttributedKeys(out: seq<UsageEvent>, parsed: seq<UsageEvent>, c: SignIns.Context)
    requires SignIns.AreAttributed(out, parsed, c) && DistinctKeys(parsed)
    ensures DistinctKeys(out)
    ensures forall a :: a in out ==> Transcripts.HasKey(parsed, a.dedupeKey)
  {
    if parsed != [] {
      hide SignIns.IsRefOf;
      var n, m := |parsed| - 1, |out| - 1;
      if SignIns.IsRefOf(None, parsed[n], c) && SignIns.AreAttributed(out, parsed[..n], c) {
        AttributedKeys(out, parsed[..n], c);
        LongerHasKeys(parsed);
      } else {
        AttributedKeys(out[..m], parsed[..n], c);
        LongerHasKeys(parsed);
        assert out == out[..m] + [out[m]];
        assert parsed[n].dedupeKey == out[m].dedupeKey;
        forall k | 0 <= k < m ensures out[k].dedupeKey != out[m].dedupeKey {
          assert out[..m][k] in out[..m];
          var j :| 0 <= j < n && parsed[..n][j].dedupeKey == out[k].dedupeKey;
          assert parsed[j].dedupeKey != parsed[n].dedupeKey;
        }
      }
    }
  }

  lemma LongerHasKeys(parsed: seq<UsageEvent>)
    requires parsed != []
    ensures forall key :: Transcripts.HasKey(parsed[..|parsed| - 1], key) ==> Transcripts.HasKey(parsed, key)
  {
    forall key | Transcripts.HasKey(parsed[..|parsed| - 1], key) ensures Transcripts.HasKey(parsed, key) {
      var k :| 0 <= k < |parsed| - 1 && parsed[..|parsed| - 1][k].dedupeKey == key;
      assert parsed[k].dedupeKey == key;
    }
  }

  /** Scanning a transcript that has not changed queues nothing. */
  lemma RescanIsQuiet(s: Local, f: File, rules: Transcripts.Rules)
    requires WasRead(f, rules)
    ensures var once := IngestScan(s, f.scan).0;
            IngestScan(once, f.scan) == (once, 0)
  {
    AttributedKeys(f.scan.events, f.parsed, f.context);
    IngestAgain(s, f.scan);
  }

  // ------------------------------------------------------------ grown rollouts

  /** Events attributed to one account. */
  function On(es: seq<UsageEvent>, ref: string): seq<UsageEvent> {
    seq(|es|, i requires 0 <= i < |es| => es[i].(accountRef := ref))
  }

  lemma OnKeys(es: seq<UsageEvent>, ref: string, key: string)
    ensures Rollouts.HasKey(On(es, ref), key) <==> Rollouts.HasKey(es, key)
  {
    assert forall j :: 0 <= j < |es| ==> On(es, ref)[j].dedupeKey == es[j].dedupeKey;
  }

  lemma {:induction false} SavedKeys(s: Local, es: seq<UsageEvent>, key: string)
    ensures key in SaveEvents(s, es).0.events <==> key in s.events || Rollouts.HasKey(es, key)
  {
    hide SaveEvent;
    if es != [] {
      var n := |es| - 1;
      SavedKeys(s, es[..n], key);
      SavedKey(SaveEvents(s, es[..n]).0, es[n], key);
      assert es == es[..n] + [es[n]];
    }
  }

  lemma SavedKey(s: Local, e: UsageEvent, key: string)
    ensures key in SaveEvent(s, e).0.events <==> key in s.events || key == e.dedupeKey
  {
    hide Takes, ClientLedger.Merge, FirstRow, PreviousRef;
  }

  /** A rollout read, read again when it has grown, and saved each time. */
  ghost function ReadTwice(s: Local, lines: seq<Rollouts.Line>, more: seq<Rollouts.Line>, ref: string): Local {
    SaveEvents(SaveEvents(s, On(Rollouts.Parsed(lines), ref)).0, On(Rollouts.Parsed(lines + more), ref)).0
  }

  /** The ledger keeps the keys of both readings; Rollouts.KeyStays says which
      keys of the first are not among those of the second. */
  lemma GrownRolloutKeys(s: Local, lines: seq<Rollouts.Line>, more: seq<Rollouts.Line>, ref: string, key: string)
    ensures key in ReadTwice(s, lines, more, ref).events <==>
            key in s.events || Rollouts.HasKey(Rollouts.Parsed(lines), key)
                || Rollouts.HasKey(Rollouts.Parsed(lines + more), key)
  {
    var first, second := Rollouts.Parsed(lines), Rollouts.Parsed(lines + more);
    OnKeys(first, ref, key);
    OnKeys(second, ref, key);
    SavedKeys(s, On(first, ref), key);
    SavedKeys(SaveEvents(s, On(first, ref)).0, On(second, ref), key);
    hide Rollouts.Parsed, Rollouts.HasKey, SaveEvents, On;
  }

  const USAGE := Rollouts.TokenUsage(9, 0, 0, 1, 0, 10)

  /** A rollout with a count only, and the record of the same request that follows. */
  const COUNTED: seq<Rollouts.Line> :=
    [Rollouts.Meta("s", "", "cli", ""), Rollouts.TokenCount(Some(Rollouts.Info(USAGE, USAGE)), None, 0)]
  const RECORD: seq<Rollouts.Line> := [Rollouts.Request("r", "", USAGE, USAGE, 0)]

  lemma TenKey()
    ensures Rollouts.TotalKey("s", 10) == "codex:s:tc:10"
  {
    assert Rollouts.Digit(1) == '1' && Rollouts.Digit(0) == '0';
    assert Rollouts.Digits(1) == "1" && Rollouts.Digits(10) == Rollouts.Digits(1) + "0";
    assert Rollouts.Decimal(10) == "10";
  }

  lemma CountedLines()
    ensures Rollouts.Requests(COUNTED) == [] && Rollouts.Session(COUNTED) == "s" && !Rollouts.Skipped(COUNTED)
    ensures Rollouts.Counts(COUNTED) == [Rollouts.Count(Rollouts.Info(USAGE, USAGE), "s", "unknown", 0)]
  {
    var meta := COUNTED[..1];
    assert |COUNTED| == 2 && meta == [COUNTED[0]] && meta[..0] == [];
    assert Rollouts.Session(meta) == "s" && Rollouts.Model(meta) == Rollouts.Model([]) == "unknown";
    assert Rollouts.Counts(meta) == [];
    assert Rollouts.Requests(meta[..0]) == [];
    assert !meta[0].Request? && Rollouts.Requests(meta) == Rollouts.Requests(meta[..0]);
  }

  lemma CountedOnce()
    ensures var events := Rollouts.Parsed(COUNTED);
            |events| == 1 && events[0].dedupeKey == "codex:s:tc:10" && events[0].tokens == Tokens(9, 0, 0, 1, 0)
  {
    TenKey();
    CountedLines();
    var count := Rollouts.Count(Rollouts.Info(USAGE, USAGE), "s", "unknown", 0);
    assert [count][..0] == [];
    hide Rollouts.TotalKey, Rollouts.Requests, Rollouts.Counts, Rollouts.Session, Rollouts.Skipped, Rollouts.Originator;
    assert Rollouts.Fallback([count]) == [Rollouts.CountEvent(count, Rollouts.Before([], count))];
    hide Rollouts.Fallback;
    assert Rollouts.Parsed(COUNTED) == Rollouts.Events(COUNTED);
  }

  lemma RecordedOnce()
    ensures var events := Rollouts.Parsed(COUNTED + RECORD);
            |events| == 1 && events[0].dedupeKey == "codex:r" && events[0].tokens == Tokens(9, 0, 0, 1, 0)
  {
    CountedLines();
    var all := COUNTED + RECORD;
    assert all[..2] == COUNTED && all[2] == RECORD[0] && |all| == 3;
    assert !Rollouts.Skipped(all);
    hide Rollouts.Counts, Rollouts.Fallback, Rollouts.Skipped, Rollouts.Session, Rollouts.Model, Rollouts.Originator;
    var e := Rollouts.RequestEvent(all[2], Rollouts.Session(COUNTED), Rollouts.Model(COUNTED));
    assert Rollouts.Requests(all) == Rollouts.Requests(COUNTED) + [e];
    hide Rollouts.Requests;
    assert e.dedupeKey == "codex:r" && e.tokens == Tokens(9, 0, 0, 1, 0);
    assert Rollouts.Parsed(all) == Rollouts.Events(all);
  }

  /** The request of one count and one record, read before and after the record
      was written, is in the ledger twice, with its tokens under either key. */
  lemma OneRequestTwoKeys(ref: string)
    ensures var rows := ReadTwice(EMPTY, COUNTED, RECORD, ref).events;
            && rows.Keys == {"codex:s:tc:10", "codex:r"}
            && rows["codex:s:tc:10"].tokens == rows["codex:r"].tokens == Tokens(9, 0, 0, 1, 0)
  {
    CountedOnce();
    RecordedOnce();
    var first, second := On(Rollouts.Parsed(COUNTED), ref), On(Rollouts.Parsed(COUNTED + RECORD), ref);
    hide Rollouts.Parsed;
    SaveOne(EMPTY, first);
    SaveOne(SaveEvents(EMPTY, first).0, second);
    hide SaveEvents;
  }

  lemma SaveOne(s: Local, es: seq<UsageEvent>)
    requires |es| == 1 && es[0].dedupeKey !in s.events
    ensures SaveEvents(s, es).0.events == s.events[es[0].dedupeKey := FirstRow(es[0])]
  {
    assert es[..0] == [];
  }
}
