/** Provisioning of the photo storage key: any number of processes agree on one key through a
    compare-and-set record that holds it wrapped. */
module PhotoKey {
  import opened Wrappers

  type Bytes = seq<bv8>

  const KEY_ID := "photo-sse-c"

  /** Transit decryption: the data key inside a wrapped key, if it is one. A data key and its
      wrapped form are issued together, so the plaintext of a response is `unwrap` of its ciphertext. */
  type Unwrap = string -> Option<Bytes>

  datatype Binding = Binding(keyId: string, wrapped: string)

  predicate IsSpace(c: char) { c == ' ' || c == '\t' || c == '\n' || c == '\r' }

  /** A record is usable when it names the photo key and its wrapped key is not blank. */
  predicate Usable(r: Binding) {
    r.keyId == KEY_ID && exists i :: 0 <= i < |r.wrapped| && !IsSpace(r.wrapped[i])
  }

  /** `validated_photo_key` after decoding: exactly 32 bytes. */
  function Validated(key: Option<Bytes>): Option<Bytes> {
    if key.Some? && |key.value| == 32 then key else None
  }

  /** A record that yields a key: usable, and unwrapping to 32 bytes. */
  predicate Sealed(unwrap: Unwrap, r: Binding) { Usable(r) && Validated(unwrap(r.wrapped)).Some? }

  /** Progress of one call of `photo_sse_c_key`. */
  datatype Call =
    | Begun
    | NoRecord
    | TransitReady
    | HasCandidate(wrapped: string, key: Bytes)
    | LostRace
    | Unwrapping(wrapped: string)
    | Returned(key: Bytes)
    | Failed

  /** `BadRequest` is a client error for another reason than the race; the code cannot tell them apart. */
  datatype WriteResult = Answered | AnswerLost | BadRequest | Refused

  /** The next request of a call and its fate; `ok` false is any error answer or timeout. */
  datatype Step =
    | Begin(id: nat)
    | Lookup(id: nat, ok: bool)
    | EnsureKey(id: nat, ok: bool)
    | DataKey(id: nat, ok: bool, wrapped: string)
    | Write(id: nat, result: WriteResult)
    | Decrypt(id: nat, ok: bool)

  datatype System = System(record: Option<Binding>, calls: map<nat, Call>)

  predicate Enabled(s: System, step: Step) {
    if step.Begin? then step.id !in s.calls
    else step.id in s.calls &&
         match step
         case Lookup(id, _) => s.calls[id].Begun? || s.calls[id].LostRace?
         case EnsureKey(id, _) => s.calls[id].NoRecord?
         case DataKey(id, _, _) => s.calls[id].TransitReady?
         case Write(id, _) => s.calls[id].HasCandidate?
         case Decrypt(id, _) => s.calls[id].Unwrapping?
         case Begin(_) => true
  }

  /** Reading the record: absent means "provision it" on the first read and an error after a lost race. */
  function AfterLookup(record: Option<Binding>, call: Call, ok: bool): Call {
    if !ok then Failed
    else match record
      case None => if call.Begun? then NoRecord else Failed
      case Some(r) => if Usable(r) then Unwrapping(r.wrapped) else Failed
  }

  /** `cas: 0` writes only when no version exists. */
  function AfterWrite(s: System, id: nat, result: WriteResult): System
    requires id in s.calls && s.calls[id].HasCandidate?
  {
    var c := s.calls[id];
    if result.Refused? then s.(calls := s.calls[id := Failed])
    else if result.BadRequest? then s.(calls := s.calls[id := LostRace])
    else
      var won := s.record.None?;
      var record := if won then Some(Binding(KEY_ID, c.wrapped)) else s.record;
      var call := if result.AnswerLost? then Failed else if won then Returned(c.key) else LostRace;
      System(record, s.calls[id := call])
  }

  function Take(unwrap: Unwrap, s: System, step: Step): System
    requires Enabled(s, step)
  {
    match step
    case Begin(id) => s.(calls := s.calls[id := Begun])
    case Lookup(id, ok) => s.(calls := s.calls[id := AfterLookup(s.record, s.calls[id], ok)])
    case EnsureKey(id, ok) => s.(calls := s.calls[id := if ok then TransitReady else Failed])
    case DataKey(id, ok, wrapped) =>
      var key := Validated(unwrap(wrapped));
      s.(calls := s.calls[id := if ok && key.Some? then HasCandidate(wrapped, key.value) else Failed])
    case Write(id, result) => AfterWrite(s, id, result)
    case Decrypt(id, ok) =>
      var key := Validated(unwrap(s.calls[id].wrapped));
      s.(calls := s.calls[id := if ok && key.Some? then Returned(key.value) else Failed])
  }

  /** A returned key is the unwrapped record; a key being unwrapped is that of a usable record; a candidate
      matches its own wrapped form. */
  ghost predicate Agrees(unwrap: Unwrap, record: Option<Binding>, call: Call) {
    match call
    case Returned(key) => record.Some? && Validated(unwrap(record.value.wrapped)) == Some(key)
    case Unwrapping(wrapped) =>
      && record.Some? && record.value.wrapped == wrapped && record.value.keyId == "photo-sse-c"
      && exists i :: 0 <= i < |wrapped| && wrapped[i] !in {' ', '\t', '\n', '\r'}
    case HasCandidate(wrapped, key) => Validated(unwrap(wrapped)) == Some(key)
    case _ => true
  }

  ghost predicate Agreed(unwrap: Unwrap, s: System) {
    forall id :: id in s.calls ==> Agrees(unwrap, s.record, s.calls[id])
  }

  /** Every step keeps agreement and never replaces a stored record. */
  lemma StepAgrees(unwrap: Unwrap, s: System, step: Step)
    requires Agreed(unwrap, s) && Enabled(s, step)
    ensures Agreed(unwrap, Take(unwrap, s, step))
    ensures s.record.Some? ==> Take(unwrap, s, step).record == s.record
  {}

  ghost predicate Run(unwrap: Unwrap, states: seq<System>, steps: seq<Step>) {
    && |states| == |steps| + 1
    && states[0].calls == map[]
    && forall i :: 0 <= i < |steps| ==>
        Enabled(states[i], steps[i]) && states[i + 1] == Take(unwrap, states[i], steps[i])
  }

  lemma {:induction false} RunAgrees(unwrap: Unwrap, states: seq<System>, steps: seq<Step>, i: nat)
    requires Run(unwrap, states, steps) && i < |states|
    ensures Agreed(unwrap, states[i])
  {
    if i > 0 {
      RunAgrees(unwrap, states, steps, i - 1);
      StepAgrees(unwrap, states[i - 1], steps[i - 1]);
    }
  }

  lemma {:induction false} RecordStays(unwrap: Unwrap, states: seq<System>, steps: seq<Step>, i: nat, j: nat)
    requires Run(unwrap, states, steps) && i <= j < |states| && states[i].record.Some?
    ensures states[j].record == states[i].record
    decreases j
  {
    if i < j {
      RecordStays(unwrap, states, steps, i, j - 1);
      RunAgrees(unwrap, states, steps, j - 1);
      StepAgrees(unwrap, states[j - 1], steps[j - 1]);
    }
  }

  /** Key agreement: in every interleaving of any number of calls, whatever requests fail, any two
      keys ever returned, at any two times, are the same 32 bytes: the unwrapped record. */
  lemma KeyAgreement(unwrap: Unwrap, states: seq<System>, steps: seq<Step>, i: nat, j: nat, a: nat, b: nat)
    requires Run(unwrap, states, steps) && i <= j < |states|
    requires a in states[i].calls && states[i].calls[a].Returned?
    requires b in states[j].calls && states[j].calls[b].Returned?
    ensures states[i].calls[a].key == states[j].calls[b].key
    ensures states[j].record.Some? && unwrap(states[j].record.value.wrapped) == Some(states[j].calls[b].key)
    ensures |states[j].calls[b].key| == 32
  {
    RunAgrees(unwrap, states, steps, i);
    RunAgrees(unwrap, states, steps, j);
    assert Agrees(unwrap, states[i].record, states[i].calls[a]);
    assert Agrees(unwrap, states[j].record, states[j].calls[b]);
    RecordStays(unwrap, states, steps, i, j);
  }

  /** A candidate that comes to be written after another record is never the returned key, unless it
      is the same key: the call can only return what the record holds. */
  lemma LosingCandidate(unwrap: Unwrap, states: seq<System>, steps: seq<Step>, i: nat, j: nat, a: nat, candidate: Bytes)
    requires Run(unwrap, states, steps) && i < j < |states|
    requires steps[i].Write? && steps[i].id == a && states[i].calls[a].key == candidate && states[i].record.Some?
    requires a in states[j].calls && states[j].calls[a] == Returned(candidate)
    ensures Validated(unwrap(states[i].record.value.wrapped)) == Some(candidate)
  {
    RunAgrees(unwrap, states, steps, j);
    assert Agrees(unwrap, states[j].record, states[j].calls[a]);
    RecordStays(unwrap, states, steps, i, j);
  }

  // ---- Progress ----

  /** The request is answered without an error, and a new data key is a valid one. A client error on the
      write is taken for a lost race, which is right if there is a record. */
  predicate Fine(unwrap: Unwrap, s: System, step: Step) {
    match step
    case Begin(_) => true
    case Lookup(_, ok) => ok
    case EnsureKey(_, ok) => ok
    case DataKey(_, ok, wrapped) => ok && Validated(unwrap(wrapped)).Some?
    case Write(_, result) => result.Answered? || (result.BadRequest? && s.record.Some?)
    case Decrypt(_, ok) => ok
  }

  /** A call none of whose requests fails does not fail, whatever the other calls do and whoever wins,
      as long as the record yields a key whenever there is one; after a lost race there is one. */
  lemma {:induction false} FineCall(unwrap: Unwrap, states: seq<System>, steps: seq<Step>, i: nat, id: nat)
    requires Run(unwrap, states, steps) && i < |states| && id in states[i].calls
    requires forall j :: 0 <= j <= i && states[j].record.Some? ==> Sealed(unwrap, states[j].record.value)
    requires forall j :: 0 <= j < i && steps[j].id == id ==> Fine(unwrap, states[j], steps[j])
    ensures !states[i].calls[id].Failed? && (states[i].calls[id].LostRace? ==> states[i].record.Some?)
  {
    if i > 0 && id in states[i - 1].calls {
      FineCall(unwrap, states, steps, i - 1, id);
      RunAgrees(unwrap, states, steps, i - 1);
      assert Agrees(unwrap, states[i - 1].record, states[i - 1].calls[id]);
      FineStep(unwrap, states[i - 1], steps[i - 1], id);
    }
  }

  lemma FineStep(unwrap: Unwrap, s: System, step: Step, id: nat)
    requires Enabled(s, step) && id in s.calls && Agrees(unwrap, s.record, s.calls[id])
    requires !s.calls[id].Failed? && (s.calls[id].LostRace? ==> s.record.Some?)
    requires (s.record.Some? ==> Sealed(unwrap, s.record.value)) && (step.id == id ==> Fine(unwrap, s, step))
    ensures var s' := Take(unwrap, s, step); !s'.calls[id].Failed? && (s'.calls[id].LostRace? ==> s'.record.Some?)
  {}

  /** A request that fails ends its call. */
  lemma FaultFails(unwrap: Unwrap, s: System, step: Step)
    requires Enabled(s, step)
    requires match step
             case Begin(_) => false
             case Lookup(_, ok) => !ok
             case EnsureKey(_, ok) => !ok
             case DataKey(_, ok, wrapped) => !ok || Validated(unwrap(wrapped)).None?
             case Write(_, result) => result.AnswerLost? || result.Refused?
             case Decrypt(_, ok) => !ok
    ensures Take(unwrap, s, step).calls[step.id].Failed?
  {}

  /** Requests that a call may still make. */
  function Remaining(call: Call): nat {
    match call
    case Begun => 6
    case NoRecord => 5
    case TransitReady => 4
    case HasCandidate(_, _) => 3
    case LostRace => 2
    case Unwrapping(_) => 1
    case Returned(_) => 0
    case Failed => 0
  }

  /** Every request brings its call nearer to its end, and a call that has not ended has a next request:
      each call ends after at most six. With `FineCall` it returns a key unless a request fails. */
  lemma CallEnds(unwrap: Unwrap, s: System, step: Step)
    requires Enabled(s, step) && !step.Begin?
    ensures Remaining(Take(unwrap, s, step).calls[step.id]) < Remaining(s.calls[step.id])
  {}

  lemma NextRequest(s: System, id: nat)
    requires id in s.calls
    ensures Remaining(s.calls[id]) > 0 <==> exists step: Step :: step.id == id && Enabled(s, step)
  {
    match s.calls[id]
    case Begun => assert Enabled(s, Lookup(id, true));
    case LostRace => assert Enabled(s, Lookup(id, true));
    case NoRecord => assert Enabled(s, EnsureKey(id, true));
    case TransitReady => assert Enabled(s, DataKey(id, true, ""));
    case HasCandidate(_, _) => assert Enabled(s, Write(id, Answered));
    case Unwrapping(_) => assert Enabled(s, Decrypt(id, true));
    case Returned(_) =>
    case Failed =>
  }

  // ---- The call as the code runs it ----

  class KvStore {
    var record: Option<Binding>

    /** Another process gets its record in first, if none exists. */
    method Rival(binding: Option<Binding>)
      modifies this
      ensures record == if old(record).None? then binding else old(record)
    {
      if record.None? {
        record := binding;
      }
    }
  }

  /** Fates of the requests of one call, and what rivals write before the second, third and fourth. */
  datatype CallIo = CallIo(
    lookupOk: bool, ensureOk: bool, dataKeyOk: bool, wrapped: string, write: WriteResult,
    relookupOk: bool, decryptOk: bool,
    rival1: Option<Binding>, rival2: Option<Binding>, rival3: Option<Binding>)

  method Unwrapped(unwrap: Unwrap, binding: Binding, ok: bool) returns (key: Option<Bytes>)
    ensures key == if Usable(binding) && ok then Validated(unwrap(binding.wrapped)) else None
  {
    if !Usable(binding) || !ok {
      return None;
    }
    key := Validated(unwrap(binding.wrapped));
  }

  /** Whatever rivals write in between, a returned key is the unwrapped stored record; without
      failures, a call on a well-formed record or an empty store does return. */
  method PhotoSseCKey(unwrap: Unwrap, kv: KvStore, io: CallIo) returns (key: Option<Bytes>)
    modifies kv
    ensures key.Some? ==> kv.record.Some? && unwrap(kv.record.value.wrapped) == key && |key.value| == 32
    ensures old(kv.record).Some? ==> kv.record == old(kv.record)
    ensures (&& old(kv.record).Some? && Usable(old(kv.record).value)
             && Validated(unwrap(old(kv.record).value.wrapped)).Some? && io.lookupOk && io.decryptOk)
            ==> key.Some?
    ensures (&& old(kv.record).None? && io.rival1.None? && io.rival2.None? && io.lookupOk && io.ensureOk && io.dataKeyOk
             && io.write.Answered? && Validated(unwrap(io.wrapped)).Some?)
            ==> key == Validated(unwrap(io.wrapped)) && kv.record == Some(Binding(KEY_ID, io.wrapped))
    ensures (&& old(kv.record).None? && io.lookupOk && io.ensureOk && io.dataKeyOk
             && (io.write.Answered? || (io.write.BadRequest? && (io.rival1.Some? || io.rival2.Some?)))
             && Validated(unwrap(io.wrapped)).Some? && io.relookupOk && io.decryptOk
             && (io.rival1.Some? ==> Sealed(unwrap, io.rival1.value))
             && (io.rival1.None? && io.rival2.Some? ==> Sealed(unwrap, io.rival2.value)))
            ==> key.Some?
    ensures !io.lookupOk || (old(kv.record).None? && !(io.ensureOk && io.dataKeyOk)) ==> key.None?
    ensures old(kv.record).Some? && old(kv.record).value.keyId != "photo-sse-c" ==> key.None?
  {
    if !io.lookupOk {
      return None;
    }
    if kv.record.Some? {
      key := Unwrapped(unwrap, kv.record.value, io.decryptOk);
      return;
    }
    kv.Rival(io.rival1);
    if !io.ensureOk || !io.dataKeyOk {
      return None;
    }
    var candidate := Validated(unwrap(io.wrapped));
    if candidate.None? {
      return None;
    }
    kv.Rival(io.rival2);
    if io.write.Refused? {
      return None;
    }
    if kv.record.None? && !io.write.BadRequest? {
      kv.record := Some(Binding(KEY_ID, io.wrapped));
      key := if io.write.AnswerLost? then None else candidate;
      return;
    }
    if io.write.AnswerLost? || !io.relookupOk {
      return None;
    }
    kv.Rival(io.rival3);
    if kv.record.None? {
      return None;
    }
    key := Unwrapped(unwrap, kv.record.value, io.decryptOk);
  }
}
