/**
 Verification receipts of `okxquant_backend/llm_transport_policy.py`: which transport a connection gets
 under `auto`, over every history of receipts and evictions.
 */
module TransportPolicy {
  import opened Options

  /** A selected connection. */
  datatype Context = Context(provider: string, model: string, baseUrl: string, format: string, effort: string,
                             reasoning: string, apiKey: string)

  /** `text.rstrip('/')` */
  function StripSlashes(text: string): string
    decreases |text|
  {
    if text != "" && text[|text| - 1] == '/' then StripSlashes(text[..|text| - 1]) else text
  }

  /** The digest of the source stands for the connection tuple itself. */
  function Fingerprint(c: Context): Context
  {
    c.(baseUrl := StripSlashes(c.baseUrl))
  }

  datatype Mode = Stream | Json
  datatype State = Verified | Unsupported | Failed

  /** `recheckFailed` is `last_probe_status == 'failed'`. */
  datatype Record = Record(state: State, category: string, recheckFailed: bool)

  datatype Entry = Entry(stream: Option<Record>, json: Option<Record>)

  /** The capabilities dictionary: `order` is its insertion order. */
  datatype Capabilities = Capabilities(order: seq<Context>, entries: map<Context, Entry>)

  const EMPTY := Capabilities([], map[])
  const CAPACITY: nat := 512

  function Of(entry: Entry, mode: Mode): Option<Record>
  {
    if mode == Stream then entry.stream else entry.json
  }

  function With(entry: Entry, mode: Mode, record: Record): Entry
  {
    if mode == Stream then entry.(stream := Some(record)) else entry.(json := Some(record))
  }

  function StateOf(ok: bool, category: string): State
  {
    if ok then Verified else if category == "stream_unsupported" then Unsupported else Failed
  }

  /** What is stored after a probe: a failed recheck of a verified capability keeps it. */
  function Merge(previous: Option<Record>, record: Record): Record
  {
    if record.state == Failed && previous.Some? && previous.value.state == Verified
    then previous.value.(recheckFailed := true)
    else record
  }

  /** Dropping the entries inserted first until the capacity holds. */
  function Evict(c: Capabilities): Capabilities
    decreases |c.order|
  {
    if |c.order| <= CAPACITY then c else Evict(Capabilities(c.order[1..], c.entries - {c.order[0]}))
  }

  function Insert(c: Capabilities, fp: Context): Capabilities
  {
    if fp in c.entries then c else Capabilities(c.order + [fp], c.entries[fp := Entry(None, None)])
  }

  function Put(c: Capabilities, fp: Context, mode: Mode, record: Record): Capabilities
    requires fp in c.entries
  {
    c.(entries := c.entries[fp := With(c.entries[fp], mode, Merge(Of(c.entries[fp], mode), record))])
  }

  function Stamp(c: Capabilities, fp: Context, mode: Mode, record: Record): Capabilities
  {
    Evict(Put(Insert(c, fp), fp, mode, record))
  }

  // ---------------------------------------------------------------------------------------------
  // status
  // ---------------------------------------------------------------------------------------------

  datatype PolicyMode = Auto | Always(mode: Mode)

  predicate Has(c: Capabilities, fp: Context, mode: Mode, state: State)
  {
    fp in c.entries && Of(c.entries[fp], mode).Some? && Of(c.entries[fp], mode).value.state == state
  }

  /** `effective_mode`: auto takes the stream only on a verified receipt. */
  function EffectiveMode(c: Capabilities, policy: PolicyMode, context: Context): Mode
  {
    match policy
    case Always(mode) => mode
    case Auto => if Has(c, Fingerprint(context), Stream, Verified) then Stream else Json
  }

  // ---------------------------------------------------------------------------------------------
  // Histories of receipts
  // ---------------------------------------------------------------------------------------------

  datatype Receipt = Receipt(fp: Context, mode: Mode, ok: bool, category: string)

  function StateAfter(r: Receipt): State
  {
    StateOf(r.ok, r.category)
  }

  function After(receipts: seq<Receipt>): Capabilities
    decreases |receipts|
  {
    if receipts == [] then EMPTY
    else
      var n := |receipts| - 1;
      var r := receipts[n];
      Stamp(After(receipts[..n]), r.fp, r.mode, Record(StateAfter(r), r.category, false))
  }

  predicate Present(receipts: seq<Receipt>, fp: Context)
  {
    fp in After(receipts).entries
  }

  /** The entry of `fp` that stands now was inserted by receipt `k`. */
  predicate InsertedBy(receipts: seq<Receipt>, fp: Context, k: nat)
  {
    && k < |receipts| && receipts[k].fp == fp && !Present(receipts[..k], fp)
    && forall n | k < n <= |receipts| :: Present(receipts[..n], fp)
  }

  predicate Concerns(r: Receipt, fp: Context, mode: Mode)
  {
    r.fp == fp && r.mode == mode
  }

  /** The probe neither worked nor found that the connection cannot stream. */
  predicate MerelyFailed(r: Receipt)
  {
    !r.ok && r.category != "stream_unsupported"
  }

  /** Receipt `i` is a success for `fp` and `mode`, and those after it merely failed. */
  predicate SuccessStands(receipts: seq<Receipt>, fp: Context, mode: Mode, i: nat)
    requires i < |receipts|
  {
    && Concerns(receipts[i], fp, mode) && receipts[i].ok
    && forall j | i < j < |receipts| && Concerns(receipts[j], fp, mode) :: MerelyFailed(receipts[j])
  }

  /** The latest receipt for `fp` and `mode` since `k` that did not merely fail is a success. */
  predicate LatestIsSuccess(receipts: seq<Receipt>, fp: Context, mode: Mode, k: nat)
  {
    exists i | k <= i < |receipts| :: SuccessStands(receipts, fp, mode, i)
  }

  /** The dictionary lists every entry once, and never more than the capacity. */
  ghost predicate Valid(c: Capabilities)
  {
    && (forall i, j | 0 <= i < j < |c.order| :: c.order[i] != c.order[j])
    && (forall fp :: fp in c.order <==> fp in c.entries)
  }

  lemma {:induction false} EvictKeeps(c: Capabilities)
    requires Valid(c)
    ensures Valid(Evict(c)) && |Evict(c).order| <= CAPACITY
    ensures forall fp | fp in Evict(c).entries :: fp in c.entries && Evict(c).entries[fp] == c.entries[fp]
    ensures c.order != [] ==> Evict(c).order != [] && Evict(c).order[|Evict(c).order| - 1] == c.order[|c.order| - 1]
    ensures |c.order| <= CAPACITY ==> Evict(c) == c
    decreases |c.order|
  {
    if |c.order| > CAPACITY {
      var rest := Capabilities(c.order[1..], c.entries - {c.order[0]});
      assert forall fp :: fp in rest.order <==> fp in rest.entries by {
        forall fp ensures fp in rest.order <==> fp in rest.entries {
          if fp in c.order && fp != c.order[0] {
            var i :| 0 <= i < |c.order| && c.order[i] == fp;
            assert rest.order[i - 1] == fp;
          }
        }
      }
      EvictKeeps(rest);
    }
  }

  lemma InsertKeeps(c: Capabilities, fp: Context)
    requires Valid(c)
    ensures Valid(Insert(c, fp)) && fp in Insert(c, fp).entries
    ensures fp !in c.entries ==> Insert(c, fp).order[|Insert(c, fp).order| - 1] == fp
  {
  }

  lemma PutKeeps(c: Capabilities, fp: Context, mode: Mode, record: Record)
    requires Valid(c) && fp in c.entries
    ensures Valid(Put(c, fp, mode, record))
  {
  }

  lemma LastIsListed(c: Capabilities)
    requires Valid(c) && c.order != []
    ensures c.order[|c.order| - 1] in c.entries
  {
    assert c.order[|c.order| - 1] in c.order;
  }

  /** What one receipt does: it is stored, and at most other entries are dropped. */
  lemma RecordKeeps(c: Capabilities, fp: Context, mode: Mode, record: Record)
    requires Valid(c) && |c.order| <= CAPACITY
    ensures var after := Stamp(c, fp, mode, record);
            && Valid(after) && |after.order| <= CAPACITY && fp in after.entries
            && after.entries[fp] == Put(Insert(c, fp), fp, mode, record).entries[fp]
            && forall other | other in after.entries && other != fp ::
                 other in c.entries && after.entries[other] == c.entries[other]
  {
    var inserted := Insert(c, fp);
    InsertKeeps(c, fp);
    PutKeeps(inserted, fp, mode, record);
    var put := Put(inserted, fp, mode, record);
    EvictKeeps(put);
    if fp !in c.entries {
      LastIsListed(Evict(put));
    }
    hide Evict, Valid, Merge, With;
  }

  lemma {:induction false} AlwaysValid(receipts: seq<Receipt>)
    ensures Valid(After(receipts)) && |After(receipts).order| <= CAPACITY
    decreases |receipts|
  {
    if receipts != [] {
      var n := |receipts| - 1;
      AlwaysValid(receipts[..n]);
      var r := receipts[n];
      RecordKeeps(After(receipts[..n]), r.fp, r.mode, Record(StateAfter(r), r.category, false));
    }
  }

  /** At most 512 connections are remembered, and the one recorded last is among them. */
  lemma CapacityHolds(receipts: seq<Receipt>)
    ensures |After(receipts).order| <= 512
    ensures receipts != [] ==> Present(receipts, receipts[|receipts| - 1].fp)
  {
    AlwaysValid(receipts);
    if receipts != [] {
      var n := |receipts| - 1;
      var r := receipts[n];
      AlwaysValid(receipts[..n]);
      RecordKeeps(After(receipts[..n]), r.fp, r.mode, Record(StateAfter(r), r.category, false));
    }
  }

  lemma PrefixOf(receipts: seq<Receipt>, fp: Context, k: nat)
    requires InsertedBy(receipts, fp, k) && k + 1 < |receipts|
    ensures InsertedBy(receipts[..|receipts| - 1], fp, k)
  {
    var before := receipts[..|receipts| - 1];
    assert before[..k] == receipts[..k];
    forall n | k < n <= |before| ensures Present(before[..n], fp) {
      assert before[..n] == receipts[..n];
    }
  }

  lemma StandsInPrefix(receipts: seq<Receipt>, fp: Context, mode: Mode, i: nat)
    requires i < |receipts| - 1
    ensures var n := |receipts| - 1;
            SuccessStands(receipts, fp, mode, i) <==>
              SuccessStands(receipts[..n], fp, mode, i)
              && (Concerns(receipts[n], fp, mode) ==> MerelyFailed(receipts[n]))
  {
    hide Concerns, MerelyFailed;
    var before := receipts[..|receipts| - 1];
    assert forall j | 0 <= j < |before| :: before[j] == receipts[j];
  }

  lemma OneMoreReceipt(receipts: seq<Receipt>, fp: Context, mode: Mode, k: nat)
    requires k + 1 < |receipts|
    ensures var n := |receipts| - 1;
            var r := receipts[n];
            LatestIsSuccess(receipts, fp, mode, k) <==>
              if Concerns(r, fp, mode) && !MerelyFailed(r) then r.ok else LatestIsSuccess(receipts[..n], fp, mode, k)
  {
    var n := |receipts| - 1;
    forall i | k <= i < n {
      StandsInPrefix(receipts, fp, mode, i);
    }
    LastStands(receipts, fp, mode);
    hide SuccessStands, Concerns, MerelyFailed;
    if LatestIsSuccess(receipts[..n], fp, mode, k) {
      var i :| k <= i < n && SuccessStands(receipts[..n], fp, mode, i);
      assert SuccessStands(receipts, fp, mode, i) || Concerns(receipts[n], fp, mode);
    }
  }

  lemma LastStands(receipts: seq<Receipt>, fp: Context, mode: Mode)
    requires receipts != []
    ensures var n := |receipts| - 1;
            SuccessStands(receipts, fp, mode, n) <==> Concerns(receipts[n], fp, mode) && receipts[n].ok
  {
  }

  /** How a receipt changes what counts as verified. */
  lemma StampVerifies(c: Capabilities, fp: Context, mode: Mode, r: Receipt)
    requires Valid(c) && |c.order| <= CAPACITY
    ensures var after := Stamp(c, r.fp, r.mode, Record(StateAfter(r), r.category, false));
            fp in after.entries ==>
              (Has(after, fp, mode, Verified) <==>
                 if Concerns(r, fp, mode) && !MerelyFailed(r) then r.ok else Has(c, fp, mode, Verified))
  {
    RecordKeeps(c, r.fp, r.mode, Record(StateAfter(r), r.category, false));
    hide Stamp, Valid;
  }

  lemma InsertedMeans(receipts: seq<Receipt>, fp: Context, k: nat)
    requires InsertedBy(receipts, fp, k)
    ensures k < |receipts| && receipts[k].fp == fp && !Present(receipts[..k], fp) && Present(receipts, fp)
  {
    assert receipts[..|receipts|] == receipts && Present(receipts[..|receipts|], fp);
  }

  lemma AfterSnoc(receipts: seq<Receipt>)
    requires receipts != []
    ensures var r := receipts[|receipts| - 1];
            After(receipts) == Stamp(After(receipts[..|receipts| - 1]), r.fp, r.mode, Record(StateAfter(r), r.category, false))
  {
  }

  /**
   Since its entry was inserted, a connection counts as verified exactly while the latest receipt that
   did not merely fail is a success.
   */
  lemma {:induction false} VerifiedExactlyOnLatestSuccess(receipts: seq<Receipt>, fp: Context, mode: Mode, k: nat)
    requires InsertedBy(receipts, fp, k)
    ensures Has(After(receipts), fp, mode, Verified) <==> LatestIsSuccess(receipts, fp, mode, k)
    decreases |receipts|
  {
    InsertedMeans(receipts, fp, k);
    AfterSnoc(receipts);
    var n := |receipts| - 1;
    var before := receipts[..n];
    AlwaysValid(before);
    StampVerifies(After(before), fp, mode, receipts[n]);
    hide Stamp, Valid, MerelyFailed, InsertedBy, After;
    if k < n {
      PrefixOf(receipts, fp, k);
      VerifiedExactlyOnLatestSuccess(before, fp, mode, k);
      OneMoreReceipt(receipts, fp, mode, k);
    } else {
      LastStands(receipts, fp, mode);
    }
  }

  /** Under `auto` the stream is used exactly then; a connection without an entry gets the plain request. */
  lemma AutoFollowsLatestReceipt(receipts: seq<Receipt>, context: Context, k: nat)
    ensures !Present(receipts, Fingerprint(context)) ==> EffectiveMode(After(receipts), Auto, context) == Json
    ensures InsertedBy(receipts, Fingerprint(context), k) ==>
              (EffectiveMode(After(receipts), Auto, context) == Stream
               <==> LatestIsSuccess(receipts, Fingerprint(context), Stream, k))
  {
    hide After, InsertedBy, LatestIsSuccess;
    if InsertedBy(receipts, Fingerprint(context), k) {
      VerifiedExactlyOnLatestSuccess(receipts, Fingerprint(context), Stream, k);
    }
  }

  lemma OnlyItsReceiptInserts(receipts: seq<Receipt>, fp: Context)
    requires receipts != [] && Present(receipts, fp) && !Present(receipts[..|receipts| - 1], fp)
    ensures receipts[|receipts| - 1].fp == fp
  {
    AfterSnoc(receipts);
    var n := |receipts| - 1;
    var r, before := receipts[n], receipts[..n];
    AlwaysValid(before);
    RecordKeeps(After(before), r.fp, r.mode, Record(StateAfter(r), r.category, false));
    hide Stamp, Valid, StateAfter, After;
  }

  lemma StillInserted(receipts: seq<Receipt>, fp: Context, k: nat)
    requires receipts != [] && Present(receipts, fp) && InsertedBy(receipts[..|receipts| - 1], fp, k)
    ensures InsertedBy(receipts, fp, k)
  {
    hide Present;
    var before := receipts[..|receipts| - 1];
    assert before[..k] == receipts[..k];
    forall m | k < m <= |receipts| ensures Present(receipts[..m], fp) {
      if m < |receipts| { assert before[..m] == receipts[..m]; } else { assert receipts[..m] == receipts; }
    }
  }

  /** Every present entry was inserted by some receipt. */
  lemma {:induction false} SomeReceiptInserted(receipts: seq<Receipt>, fp: Context) returns (k: nat)
    requires Present(receipts, fp)
    ensures InsertedBy(receipts, fp, k)
    decreases |receipts|
  {
    assert receipts != [];
    hide Present;
    k := |receipts| - 1;
    if Present(receipts[..k], fp) {
      k := SomeReceiptInserted(receipts[..k], fp);
      StillInserted(receipts, fp, k);
    } else {
      OnlyItsReceiptInserts(receipts, fp);
      assert receipts[..|receipts|] == receipts;
    }
  }

  // ---------------------------------------------------------------------------------------------
  // Which connections are remembered
  // ---------------------------------------------------------------------------------------------

  /** The connections with an entry, in the order of their entries: a new one comes last, and the last 512 stay. */
  function Remembered(receipts: seq<Receipt>): seq<Context>
    decreases |receipts|
  {
    if receipts == [] then []
    else
      var n := |receipts| - 1;
      var before := Remembered(receipts[..n]);
      if receipts[n].fp in before then before else LastOf(before + [receipts[n].fp], 512)
  }

  function LastOf(names: seq<Context>, n: nat): seq<Context>
  {
    if |names| <= n then names else names[|names| - n..]
  }

  lemma {:induction false} EvictsFromTheFront(c: Capabilities)
    ensures Evict(c).order == LastOf(c.order, 512)
    decreases |c.order|
  {
    if |c.order| > CAPACITY {
      EvictsFromTheFront(Capabilities(c.order[1..], c.entries - {c.order[0]}));
    }
  }

  /** A receipt makes room by dropping the entry that was inserted first, and no other. */
  lemma {:induction false} RemembersExactly(receipts: seq<Receipt>)
    ensures After(receipts).order == Remembered(receipts)
    ensures forall fp :: Present(receipts, fp) <==> fp in Remembered(receipts)
    decreases |receipts|
  {
    AlwaysValid(receipts);
    if receipts != [] {
      var n := |receipts| - 1;
      var r, before := receipts[n], After(receipts[..n]);
      RemembersExactly(receipts[..n]);
      AlwaysValid(receipts[..n]);
      EvictsFromTheFront(Put(Insert(before, r.fp), r.fp, r.mode, Record(StateAfter(r), r.category, false)));
      assert r.fp in before.order <==> r.fp in before.entries;
    }
    hide After, Valid, Evict;
  }

  // ---------------------------------------------------------------------------------------------
  // The settings document
  // ---------------------------------------------------------------------------------------------

  class TransportSettings {
    var providers: map<string, PolicyMode>
    var order: seq<Context>
    var entries: map<Context, Entry>

    function Stored(): Capabilities
      reads this
    {
      Capabilities(order, entries)
    }

    constructor ()
      ensures Stored() == EMPTY && providers == map[]
    {
      providers, order, entries := map[], [], map[];
    }

    /** `record_verification`; `selected` is the connection the configuration names now. */
    method RecordVerification(context: Context, selected: Context, mode: Mode, ok: bool, category: string)
      returns (recorded: bool)
      requires Valid(Stored())
      modifies this`order, this`entries
      ensures recorded == (Fingerprint(selected) == Fingerprint(context))
      ensures Stored() == if !recorded then old(Stored())
                          else Stamp(old(Stored()), Fingerprint(context), mode, Record(StateOf(ok, category), category, false))
      ensures Valid(Stored())
    {
      if Fingerprint(selected) != Fingerprint(context) { return false; }
      var fp := Fingerprint(context);
      hide Fingerprint;
      ghost var c := Stored();
      InsertKeeps(c, fp);
      var record := Record(StateOf(ok, category), category, false);
      if fp !in entries {
        order := order + [fp];
        entries := entries[fp := Entry(None, None)];
      }
      var previous := Of(entries[fp], mode);
      if record.state == Failed && previous.Some? && previous.value.state == Verified {
        record := previous.value.(recheckFailed := true);
      }
      entries := entries[fp := With(entries[fp], mode, record)];
      ghost var put := Stored();
      assert put == Put(Insert(c, fp), fp, mode, Record(StateOf(ok, category), category, false));
      PutKeeps(Insert(c, fp), fp, mode, Record(StateOf(ok, category), category, false));
      EvictKeeps(put);
      hide Put, Insert, Valid;
      while |order| > CAPACITY
        invariant Evict(Stored()) == Evict(put)
        decreases |order|
      {
        entries := entries - {order[0]};
        order := order[1..];
      }
      return true;
    }
  }
}
