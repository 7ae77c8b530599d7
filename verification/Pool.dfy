/** The signature-slot pool: metatypes minted on demand for array and map element
    signatures that Qt cannot produce by itself. */
module Pool {
  import opened Signature

  const POOL_SIZE := 64

  /** What beginArray and beginMap take. */
  datatype MetaType =
    | NoType
    | Builtin(sig: string)
    | Slot(index: nat)

  /** Everything Qt's registry and dbusqml's own map know. */
  datatype Registry = Registry(slots: map<string, nat>, registered: seq<string>)

  ghost predicate RegistryValid(r: Registry) {
    && |r.registered| <= 64
    && (forall s :: s in r.slots ==> r.slots[s] < |r.registered| && r.registered[r.slots[s]] == s)
    && (forall i :: 0 <= i < |r.registered| ==> r.registered[i] in r.slots && r.slots[r.registered[i]] == i)
    && (forall i :: 0 <= i < |r.registered| ==> Valid(r.registered[i], Single))
  }

  /** Slots are only ever added: nothing slots moves and nothing registered changes. */
  predicate Extends(now: Registry, before: Registry) {
    && before.registered <= now.registered
    && (forall s :: s in before.slots ==> s in now.slots && now.slots[s] == before.slots[s])
  }

  lemma ExtendsItself(a: Registry)
    ensures Extends(a, a)
  {
  }

  lemma ExtendsTransitive(a: Registry, b: Registry, c: Registry)
    requires Extends(b, a) && Extends(c, b)
    ensures Extends(c, a)
  {
  }

  /** The element signatures metaTypeForSignature maps without the pool. Which ones
      Qt's own signatureToMetaType knows is Qt's business: `qtKnows`. */
  predicate IsBuiltin(qtKnows: set<string>, sig: string) {
    sig in qtKnows || sig in {"a{sv}", "a{sa{sv}}", "aa{sv}", "h"}
  }

  /** The metatype a signature has, if it has one by now. */
  function MetaTypeOf(qtKnows: set<string>, r: Registry, sig: string): MetaType {
    if IsBuiltin(qtKnows, sig) then Builtin(sig)
    else if sig in r.slots then Slot(r.slots[sig])
    else NoType
  }

  /** QDBusMetaType::typeToSignature: what libdbus is told when a container opens. */
  function SignatureOfMeta(r: Registry, mt: MetaType): string {
    match mt
    case NoType => ""
    case Builtin(sig) => sig
    case Slot(i) => if i < |r.registered| then r.registered[i] else ""
  }

  /** Two different signatures never share a metatype, and every metatype handed out
      stands for exactly the signature it was asked for, now and after any growth. */
  lemma MetaTypeIsFaithful(qtKnows: set<string>, r: Registry, later: Registry, sig: string, other: string)
    requires RegistryValid(r) && RegistryValid(later) && Extends(later, r)
    requires MetaTypeOf(qtKnows, r, sig) != NoType
    ensures MetaTypeOf(qtKnows, later, sig) == MetaTypeOf(qtKnows, r, sig)
    ensures SignatureOfMeta(later, MetaTypeOf(qtKnows, r, sig)) == sig
    ensures MetaTypeOf(qtKnows, later, other) == MetaTypeOf(qtKnows, later, sig) ==> other == sig
  {
  }

  /** Whatever Qt knows and however full the pool is, these have a metatype of their own. */
  lemma BuiltinsNeedNoSlot(qtKnows: set<string>, r: Registry, sig: string)
    requires sig in qtKnows || sig == "a{sv}" || sig == "a{sa{sv}}" || sig == "aa{sv}" || sig == "h"
    ensures MetaTypeOf(qtKnows, r, sig) == Builtin(sig)
  {
  }

  class SlotPool {
    const qtKnows: set<string>
    var slots: map<string, nat>
    var nextFree: nat
    var registered: seq<string> // Qt's registry, by slot index

    ghost predicate Valid()
      reads this
    {
      nextFree == |registered| && RegistryValid(View())
    }

    ghost function View(): Registry
      reads this
    {
      Registry(slots, registered)
    }

    constructor (qtKnows: set<string>)
      ensures Valid() && this.qtKnows == qtKnows
      ensures View() == Registry(map[], [])
    {
      this.qtKnows := qtKnows;
      slots := map[];
      nextFree := 0;
      registered := [];
    }

    /** signatureSlotForSignature: validate, look up, or assign the next free slot. */
    method SlotForSignature(sig: string) returns (mt: MetaType)
      requires Valid()
      modifies this
      ensures Valid() && Extends(View(), old(View()))
      ensures mt != NoType ==> sig in slots && mt == Slot(slots[sig])
      ensures mt != NoType && sig !in old(slots) ==> registered == old(registered) + [sig]
      ensures mt == NoType || sig in old(slots) ==> View() == old(View())
      ensures mt == NoType <==> !Signature.Valid(sig, Single) || (sig !in old(slots) && old(nextFree) == 64)
    {
      var ok := ValidateSignature(sig, Single);
      if !ok {
        return NoType;
      }
      if sig in slots {
        return Slot(slots[sig]);
      }
      if nextFree >= POOL_SIZE {
        return NoType;
      }
      var index := nextFree;
      nextFree := nextFree + 1;
      slots := slots[sig := index];
      registered := registered + [sig];
      return Slot(index);
    }

    /** metaTypeForSignature. */
    method MetaTypeForSignature(sig: string) returns (mt: MetaType)
      requires Valid()
      modifies this
      ensures Valid() && Extends(View(), old(View()))
      ensures mt == MetaTypeOf(qtKnows, View(), sig)
      ensures mt == NoType || MetaTypeOf(qtKnows, old(View()), sig) != NoType ==> View() == old(View())
      ensures Signature.Valid(sig, Single) && mt == NoType ==> nextFree == 64
    {
      if IsBuiltin(qtKnows, sig) {
        return Builtin(sig);
      }
      mt := SlotForSignature(sig);
    }
  }
}
