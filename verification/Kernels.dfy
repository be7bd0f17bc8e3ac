/** The kernel table: installing a blob at the next free address with its jump targets moved
    there, looking kernels up by name, and calling one. */
module Kernels {
  import opened Trits
  import opened Words
  import opened Packing
  import opened Isa
  import opened Machine
  import opened Vectors
  import opened Simulator

  predicate IsJumpOp(op: Opcode) {
    op == TBEQ || op == TBNE || op == TBLT || op == TJUMP || op == TCALL
  }

  /** A decoded instruction with a jump target moved from blob-relative to absolute. */
  function Moved(i: Instr, base: int): Instr {
    if IsJumpOp(i.op) then i.(imm := WrapInt32(base) + i.imm) else i
  }

  ghost predicate Decodable(blob: seq<Word27>) {
    forall k :: 0 <= k < |blob| ==> DecodeSpec(blob[k]).Some?
  }

  /** The memory value install writes for one word of a blob. */
  function MovedValue(w: Word27, base: int): int
    requires DecodeSpec(w).Some?
  {
    Value(EncodeSpec(Moved(DecodeSpec(w).value, base)))
  }

  predicate Fits(size: nat, base: nat, blob: seq<Word27>) {
    blob == [] || base + |blob| <= size
  }

  /** The words of the blob sit, relocated, at base in memory. */
  ghost predicate Image(mem: seq<int>, base: nat, blob: seq<Word27>)
    requires Decodable(blob)
  {
    && Fits(|mem|, base, blob)
    && forall k {:trigger MovedValue(blob[k], base)} :: 0 <= k < |blob| ==> mem[base + k] == MovedValue(blob[k], base)
  }

  /** The first word of the blob that does not decode or finds no room. */
  ghost function StopsAt(size: nat, base: nat, blob: seq<Word27>): (k: nat)
    ensures k <= |blob|
    ensures forall i :: 0 <= i < k ==> DecodeSpec(blob[i]).Some? && base + i < size
    ensures k < |blob| ==> DecodeSpec(blob[k]).None? || base + k >= size
    decreases |blob|
  {
    if blob == [] || DecodeSpec(blob[0]).None? || base >= size then 0 else 1 + StopsAt(size, base + 1, blob[1..])
  }

  /** The fault of installing a word: it is decoded before it is stored. */
  function WordFault(size: nat, addr: nat, w: Word27): Option<Fault> {
    if DecodeSpec(w).None? then Some(IllegalOpcode) else if addr >= size then Some(OutOfBounds) else None
  }

  ghost function BlobFault(size: nat, base: nat, blob: seq<Word27>): Option<Fault> {
    var k := StopsAt(size, base, blob);
    if k == |blob| then None else WordFault(size, base + k, blob[k])
  }

  lemma BlobFits(size: nat, base: nat, blob: seq<Word27>)
    ensures BlobFault(size, base, blob).None? <==> Decodable(blob) && Fits(size, base, blob)
  {
    hide DecodeSpec;
    var k := StopsAt(size, base, blob);
    if k == |blob| && blob != [] { assert DecodeSpec(blob[k - 1]).Some?; }
  }

  /** Memory after the blob was stored at base: its image there, and nothing else changed. */
  ghost predicate Holds(mem0: seq<int>, mem: seq<int>, base: nat, blob: seq<Word27>) {
    && |mem| == |mem0| && Decodable(blob) && Image(mem, base, blob)
    && forall a :: 0 <= a < |mem| && !(base <= a < base + |blob|) ==> mem[a] == mem0[a]
  }

  /** The image of the words before the first that fails is stored at base, that word's fault is
      reported, and the next address is one past the last address tried. */
  ghost predicate StoredBlob(mem0: seq<int>, mem: seq<int>, base: nat, next: nat, blob: seq<Word27>,
                             fault: Option<Fault>)
  {
    var k := StopsAt(|mem0|, base, blob);
    && fault == BlobFault(|mem0|, base, blob)
    && next == base + k + (if fault == Some(OutOfBounds) then 1 else 0)
    && Holds(mem0, mem, base, blob[..k])
  }

  /** The first k words are stored and none of them failed. */
  ghost predicate StoredSoFar(mem0: seq<int>, mem: seq<int>, base: nat, blob: seq<Word27>, k: nat) {
    && k <= |blob| && Holds(mem0, mem, base, blob[..k])
    && forall i :: 0 <= i < k ==> WordFault(|mem0|, base + i, blob[i]).None?
  }

  /** The first k words are stored; the next one, if any, fails. */
  lemma StopsHere(mem0: seq<int>, mem: seq<int>, base: nat, next: nat, blob: seq<Word27>, k: nat, fault: Option<Fault>)
    requires StoredSoFar(mem0, mem, base, blob, k)
    requires fault == if k == |blob| then None else WordFault(|mem0|, base + k, blob[k])
    requires fault == None ==> k == |blob|
    requires next == base + k + if fault == Some(OutOfBounds) then 1 else 0
    ensures StoredBlob(mem0, mem, base, next, blob, fault)
  {
    hide DecodeSpec, StopsAt, Holds;
    var j := StopsAt(|mem0|, base, blob);
    assert j >= k;
  }

  lemma StoredNext(mem0: seq<int>, mem: seq<int>, base: nat, blob: seq<Word27>, k: nat)
    requires StoredSoFar(mem0, mem, base, blob, k) && k < |blob|
    requires |mem| == |mem0| && WordFault(|mem0|, base + k, blob[k]).None?
    ensures DecodeSpec(blob[k]).Some? && base + k < |mem|
    ensures StoredSoFar(mem0, mem[base + k := MovedValue(blob[k], base)], base, blob, k + 1)
  {
    hide DecodeSpec, MovedValue;
    assert blob[..k + 1] == blob[..k] + [blob[k]];
    HoldsNext(mem0, mem, base, blob[..k], blob[k]);
  }

  lemma HoldsNext(mem0: seq<int>, mem: seq<int>, base: nat, blob: seq<Word27>, w: Word27)
    requires Holds(mem0, mem, base, blob) && WordFault(|mem|, base + |blob|, w).None?
    ensures DecodeSpec(w).Some? && base + |blob| < |mem|
    ensures Holds(mem0, mem[base + |blob| := MovedValue(w, base)], base, blob + [w])
  {
    hide DecodeSpec, MovedValue;
    assert forall k :: 0 <= k < |blob| ==> (blob + [w])[k] == blob[k];
  }

  lemma NothingStored(mem: seq<int>, base: nat, blob: seq<Word27>)
    ensures StoredSoFar(mem, mem, base, blob, 0)
  {
  }

  const SLOTS: nat := 32
  const NAME_MAX: nat := 32

  datatype KernelId = KernelId(entryAddr: nat, valid: bool)

  const NO_KERNEL := KernelId(0, false)

  datatype Entry = Entry(name: string, id: KernelId, used: bool)

  datatype Install = Installed(id: KernelId) | Refused(fault: Fault) | TableFull

  /** The characters of a string up to its first NUL. */
  function CStr(name: string): (r: string)
    ensures '\0' !in r
  {
    if name == "" || name[0] == '\0' then "" else [name[0]] + CStr(name[1..])
  }

  /** What the name field of a table entry keeps of a name: as much of it as fits before the NUL. */
  function Stored(name: string): (r: string)
    ensures |r| <= NAME_MAX - 1
    ensures r <= CStr(name) && (r == CStr(name) || |r| == NAME_MAX - 1)
  {
    if |CStr(name)| <= NAME_MAX - 1 then CStr(name) else CStr(name)[..NAME_MAX - 1]
  }

  /** strncmp over NAME_MAX characters of a stored name and a looked-up one. */
  predicate SameName(stored: string, name: string) {
    stored == if |CStr(name)| <= NAME_MAX then CStr(name) else CStr(name)[..NAME_MAX]
  }

  /** The id of the first used entry with that name, from slot k on. */
  function Lookup(entries: seq<Entry>, name: string, k: nat): KernelId
    requires k <= |entries|
    decreases |entries| - k
  {
    if k == |entries| then NO_KERNEL
    else if entries[k].used && SameName(entries[k].name, name) then entries[k].id
    else Lookup(entries, name, k + 1)
  }

  /** Slots are taken in order, every taken one holds a valid id under a stored name. */
  ghost predicate TableOk(entries: seq<Entry>, used: nat) {
    && used <= |entries| == SLOTS
    && (forall k :: 0 <= k < used ==>
          entries[k].used && entries[k].id.valid && |entries[k].name| <= NAME_MAX - 1)
    && (forall k :: used <= k < SLOTS ==> !entries[k].used)
  }

  /** A blob word as install stores it: decoded, and encoded again when it carries a target. */
  method MoveWord(w: Word27, base: int) returns (out: Option<Word27>)
    ensures out.Some? <==> DecodeSpec(w).Some?
    ensures out.Some? ==> Value(out.value) == MovedValue(w, base)
  {
    hide EncodeSpec, DecodeSpec, Value, WrapInt32;
    var d := Decode(w);
    if d == None { return None; }
    var instr := d.value;
    if !IsJumpOp(instr.op) {
      DecodeRoundTrip(w);
      return Some(w);
    }
    instr := instr.(imm := WrapInt32(base) + instr.imm);
    var moved := Encode(instr);
    out := Some(moved);
  }

  /** Where each installed kernel ends: the images follow one another up to the next address. */
  ghost predicate EndsOk(entries: seq<Entry>, ends: seq<nat>, used: nat, next: nat) {
    && |ends| == used <= |entries|
    && (forall k :: 0 <= k < used ==> entries[k].id.entryAddr <= ends[k] <= next)
    && (forall j, k :: 0 <= j < k < used ==> ends[j] <= entries[k].id.entryAddr)
  }

  class KernelTable {
    const entries: array<Entry>
    var nextAddr: nat
    ghost var usedSlots: nat
    ghost var ends: seq<nat>

    constructor ()
      ensures Valid() && fresh(entries) && nextAddr == 0 && usedSlots == 0 && ends == []
    {
      entries := new Entry[SLOTS](i => Entry("", NO_KERNEL, false));
      nextAddr, usedSlots, ends := 0, 0, [];
    }

    ghost predicate Valid()
      reads this, entries
    {
      TableOk(entries[..], usedSlots) && EndsOk(entries[..], ends, usedSlots, nextAddr)
    }

    /** One turn of install's first loop: an undecodable word stops it before the address moves,
        a full memory after. */
    method InstallWord(sim: Sim, w: Word27, base: nat) returns (fault: Option<Fault>)
      requires Valid() && sim.Valid() && this !in sim.Repr() && entries !in sim.Repr()
      modifies this`nextAddr, sim.mem.data
      ensures sim.Valid() && sim.Abs() == old(sim.Abs()).(mem := sim.mem.Values())
      ensures fault == WordFault(|old(sim.mem.Values())|, old(nextAddr), w)
      ensures nextAddr == old(nextAddr) + if fault == Some(IllegalOpcode) then 0 else 1
      ensures sim.mem.Values() ==
        if fault.None? then old(sim.mem.Values())[old(nextAddr) := MovedValue(w, base)]
        else old(sim.mem.Values())
    {
      hide DecodeSpec, MovedValue, Value;
      var out := MoveWord(w, base);
      if out == None { return Some(IllegalOpcode); }
      var addr := nextAddr;
      nextAddr := nextAddr + 1;
      var ok := sim.mem.StoreWord(addr, out.value);
      fault := if ok then None else Some(OutOfBounds);
    }

    /** The first loop of install: the words of the blob, relocated, at the next free addresses, up
        to the first that does not decode or finds no room. */
    method StoreBlob(sim: Sim, blob: seq<Word27>) returns (fault: Option<Fault>)
      requires Valid() && sim.Valid() && this !in sim.Repr() && entries !in sim.Repr()
      modifies this`nextAddr, sim.mem.data
      ensures sim.Valid() && sim.Abs() == old(sim.Abs()).(mem := sim.mem.Values())
      ensures StoredBlob(old(sim.mem.Values()), sim.mem.Values(), old(nextAddr), nextAddr, blob, fault)
    {
      hide DecodeSpec, MovedValue, StoredSoFar, StoredBlob, Sim.Valid, Memory.Values;
      var base := nextAddr;
      ghost var mem0 := sim.mem.Values();
      NothingStored(mem0, base, blob);
      for i := 0 to |blob|
        invariant sim.Valid() && sim.Abs() == old(sim.Abs()).(mem := sim.mem.Values())
        invariant nextAddr == base + i && |sim.mem.Values()| == |mem0|
        invariant StoredSoFar(mem0, sim.mem.Values(), base, blob, i)
      {
        ghost var before := sim.mem.Values();
        fault := InstallWord(sim, blob[i], base);
        if fault.Some? {
          StopsHere(mem0, before, base, nextAddr, blob, i, fault);
          return fault;
        }
        StoredNext(mem0, before, base, blob, i);
      }
      fault := None;
      StopsHere(mem0, sim.mem.Values(), base, nextAddr, blob, |blob|, fault);
    }

    /** The second loop of install: the first unused slot takes the entry. */
    method TakeSlot(name: string, id: KernelId, ghost end: nat) returns (taken: bool)
      requires TableOk(entries[..], usedSlots) && EndsOk(entries[..], ends, usedSlots, id.entryAddr)
      requires id.valid && id.entryAddr <= end
      modifies this`usedSlots, this`ends, entries
      ensures TableOk(entries[..], usedSlots) && EndsOk(entries[..], ends, usedSlots, end)
      ensures taken == (old(usedSlots) < SLOTS)
      ensures usedSlots == old(usedSlots) + if taken then 1 else 0
      ensures ends == old(ends) + if taken then [end] else []
      ensures entries[..] == if taken
        then old(entries[..])[old(usedSlots) := Entry(Stored(name), id, true)]
        else old(entries[..])
    {
      for e := 0 to SLOTS
        invariant usedSlots == old(usedSlots) && ends == old(ends) && entries[..] == old(entries[..])
        invariant TableOk(entries[..], usedSlots) && e <= usedSlots
      {
        if entries[e].used { continue; }
        entries[e] := Entry(Stored(name), id, true);
        usedSlots := usedSlots + 1;
        ends := ends + [end];
        return true;
      }
      taken := false;
    }

    /** KernelTable::install */
    method Install(sim: Sim, name: string, blob: seq<Word27>) returns (r: Install)
      requires Valid() && sim.Valid() && this !in sim.Repr() && entries !in sim.Repr()
      modifies this, entries, sim.mem.data
      ensures Valid() && sim.Valid()
      // only memory changes in the machine: the image of the words before the first that fails
      ensures sim.Abs() == old(sim.Abs()).(mem := sim.mem.Values())
      ensures StoredBlob(old(sim.mem.Values()), sim.mem.Values(), old(nextAddr), nextAddr, blob,
                         BlobFault(|old(sim.mem.Values())|, old(nextAddr), blob))
      // each outcome and its exact condition
      ensures var fault := BlobFault(|old(sim.mem.Values())|, old(nextAddr), blob);
        r == if fault.Some? then Refused(fault.value)
             else if old(usedSlots) == SLOTS then TableFull
             else Installed(KernelId(old(nextAddr), true))
      ensures usedSlots == old(usedSlots) + if r.Installed? then 1 else 0
      ensures ends == old(ends) + if r.Installed? then [nextAddr] else []
      ensures entries[..] == if r.Installed?
        then old(entries[..])[old(usedSlots) := Entry(Stored(name), r.id, true)]
        else old(entries[..])
      // what lookups find afterwards
      ensures r.Installed? ==> (Lookup(entries[..], name, 0) == r.id <==>
        Lookup(old(entries[..]), name, 0) == r.id
        || (|CStr(name)| <= NAME_MAX - 1 && Lookup(old(entries[..]), name, 0) == NO_KERNEL))
      ensures forall other :: Lookup(old(entries[..]), other, 0) != NO_KERNEL ==>
        Lookup(entries[..], other, 0) == Lookup(old(entries[..]), other, 0)
      ensures r.Installed? ==> forall other :: Lookup(old(entries[..]), other, 0) == NO_KERNEL ==>
        Lookup(entries[..], other, 0) == if CStr(other) == Stored(name) then r.id else NO_KERNEL
    {
      hide Decodable, Image, Stored, StopsAt, BlobFault, Holds, Lookup;
      var id := KernelId(nextAddr, true);
      ghost var table0, used0 := entries[..], usedSlots;
      var fault := StoreBlob(sim, blob);
      if fault.Some? { return Refused(fault.value); }
      var slot := TakeSlot(name, id, nextAddr);
      if slot { FindAfterInstall(table0, used0, name, id); }
      r := if slot then Installed(id) else TableFull;
    }

    /** KernelTable::find */
    method Find(name: string) returns (id: KernelId)
      requires Valid()
      ensures id == Lookup(entries[..], name, 0)
    {
      for k := 0 to SLOTS
        invariant Lookup(entries[..], name, 0) == Lookup(entries[..], name, k)
      {
        if entries[k].used && SameName(entries[k].name, name) { return entries[k].id; }
      }
      id := NO_KERNEL;
    }
  }

  // ---- lookup by name ----

  lemma {:induction false} LookupUnused(entries: seq<Entry>, name: string, k: nat, used: nat)
    requires TableOk(entries, used) && used <= k <= SLOTS
    ensures Lookup(entries, name, k) == NO_KERNEL
    decreases SLOTS - k
  {
    if k == SLOTS {
    } else {
      LookupUnused(entries, name, k + 1, used);
    }
  }

  lemma {:induction false} LookupValid(entries: seq<Entry>, name: string, k: nat, used: nat)
    requires TableOk(entries, used) && k <= SLOTS
    ensures Lookup(entries, name, k) == NO_KERNEL <==>
      forall j :: k <= j < used ==> !SameName(entries[j].name, name)
    ensures Lookup(entries, name, k).valid || Lookup(entries, name, k) == NO_KERNEL
    decreases SLOTS - k
  {
    if k == SLOTS {
    } else {
      LookupValid(entries, name, k + 1, used);
    }
  }

  lemma {:induction false} LookupAppend(entries: seq<Entry>, used: nat, e: Entry, name: string, k: nat)
    requires TableOk(entries, used) && used < SLOTS && k <= used
    requires e.used && e.id.valid && |e.name| <= NAME_MAX - 1
    ensures Lookup(entries[used := e], name, k) ==
      if Lookup(entries, name, k) != NO_KERNEL then Lookup(entries, name, k)
      else if SameName(e.name, name) then e.id else NO_KERNEL
    decreases used - k
  {
    var next := entries[used := e];
    if k == used {
      LookupUnused(entries, name, used, used);
      LookupUnused(next, name, used + 1, used + 1);
    } else {
      LookupAppend(entries, used, e, name, k + 1);
    }
  }

  /** Installing under a name makes that name find the new kernel exactly when the name is short
      enough to be stored whole and was not in the table already, or was there with the same
      entry address. Every lookup that matched an earlier kernel still finds it; one that matched
      none now finds the new kernel exactly under the name as it was stored. */
  lemma FindAfterInstall(entries: seq<Entry>, used: nat, name: string, id: KernelId)
    requires TableOk(entries, used) && used < SLOTS && id.valid
    ensures Lookup(entries[used := Entry(Stored(name), id, true)], name, 0) == id <==>
      Lookup(entries, name, 0) == id || (|CStr(name)| <= NAME_MAX - 1 && Lookup(entries, name, 0) == NO_KERNEL)
    ensures forall other :: Lookup(entries, other, 0) != NO_KERNEL ==>
      Lookup(entries[used := Entry(Stored(name), id, true)], other, 0) == Lookup(entries, other, 0)
    ensures forall other :: Lookup(entries, other, 0) == NO_KERNEL ==>
      Lookup(entries[used := Entry(Stored(name), id, true)], other, 0)
      == if CStr(other) == Stored(name) then id else NO_KERNEL
  {
    var e := Entry(Stored(name), id, true);
    LookupAppend(entries, used, e, name, 0);
    forall other | Lookup(entries, other, 0) == NO_KERNEL
      ensures Lookup(entries[used := e], other, 0) == if CStr(other) == Stored(name) then id else NO_KERNEL
    {
      LookupAppend(entries, used, e, other, 0);
    }
    forall other | Lookup(entries, other, 0) != NO_KERNEL
      ensures Lookup(entries[used := e], other, 0) == Lookup(entries, other, 0)
    {
      LookupAppend(entries, used, e, other, 0);
    }
  }

  /** Two entries share an address only if the earlier kernel is empty. */
  lemma SharedAddressIsEmpty(entries: seq<Entry>, ends: seq<nat>, used: nat, next: nat, j: nat, k: nat)
    requires TableOk(entries, used) && EndsOk(entries, ends, used, next) && j < k < used
    ensures entries[j].id == entries[k].id ==> ends[j] == entries[j].id.entryAddr
  {
    assert ends[j] <= entries[k].id.entryAddr;
  }

  /** An empty kernel was installed at the next address. */
  ghost predicate EmptyAt(entries: seq<Entry>, ends: seq<nat>, next: nat, j: nat)
    requires j < |entries| && j < |ends|
  {
    entries[j].id == KernelId(next, true) && ends[j] == next
  }

  /** A lookup finds the next address only for a name that an empty kernel was installed under. */
  lemma {:induction false} NextAddressIsEmpty(entries: seq<Entry>, ends: seq<nat>, used: nat, next: nat,
                                              name: string, k: nat)
    requires TableOk(entries, used) && EndsOk(entries, ends, used, next) && k <= SLOTS
    requires Lookup(entries, name, k) == KernelId(next, true)
    ensures exists j :: k <= j < used && EmptyAt(entries, ends, next, j) && SameName(entries[j].name, name)
    decreases SLOTS - k
  {
    if entries[k].used && SameName(entries[k].name, name) {
      assert k < used;
    } else {
      NextAddressIsEmpty(entries, ends, used, next, name, k + 1);
    }
  }

  /** The table after installing one kernel, and after a second one under the same name. */
  function OneEntry(name: string, id: KernelId): seq<Entry> {
    [Entry(Stored(name), id, true)] + seq(SLOTS - 1, i => Entry("", NO_KERNEL, false))
  }

  const LONG_NAME: string := seq(32, i => 'k')

  /** A kernel installed under a name of 32 characters is not found. */
  lemma LongNameNotFound()
    ensures Lookup(OneEntry(LONG_NAME, KernelId(0, true)), LONG_NAME, 0) == NO_KERNEL
  {
    hide CStr;
    NoNulls(LONG_NAME);
    var t := OneEntry(LONG_NAME, KernelId(0, true));
    assert !SameName(t[0].name, LONG_NAME);
    LookupUnused(t, LONG_NAME, 1, 1);
  }

  lemma {:induction false} NoNulls(name: string)
    requires '\0' !in name
    ensures CStr(name) == name
  {
    if name == "" {
    } else {
      assert name == [name[0]] + name[1..];
      NoNulls(name[1..]);
    }
  }

  /** A name taken by a kernel that is not empty finds the earlier one; taken by an empty kernel, it
      finds the new one, which has the same address. */
  lemma TakenName()
    ensures var t := OneEntry("a", KernelId(0, true));
      && Lookup(t[1 := Entry(Stored("a"), KernelId(6, true), true)], "a", 0) == KernelId(0, true)
      && Lookup(t[1 := Entry(Stored("a"), KernelId(0, true), true)], "a", 0) == KernelId(0, true)
  {
    NoNulls("a");
  }

  // ---- calling a kernel ----

  datatype Call = Returned(value: int) | Faulted(fault: Fault) | Rejected

  predicate ArgsFit(args: seq<int>) {
    forall k :: 0 <= k < |args| ==> In27(args[k])
  }

  /** The first argument that does not fit a word. */
  function FirstUnfit(args: seq<int>): (k: nat)
    ensures k <= |args| && forall i :: 0 <= i < k ==> In27(args[i])
    ensures k < |args| ==> !In27(args[k])
  {
    if |args| == 0 then 0
    else
      var n := |args| - 1;
      var k := FirstUnfit(args[..n]);
      if k == n && In27(args[n]) then |args| else k
  }

  /** The register file with the caller-saved registers cleared and the first arguments set. */
  function ArgRegs(regs: seq<int>, args: seq<int>): (r: seq<int>)
    requires |regs| == 27 && |args| <= 7
    ensures |r| == 27
  {
    seq(27, r requires 0 <= r < 27 =>
      if 1 <= r <= |args| then args[r - 1] else if 8 <= r <= 15 then 0 else regs[r])
  }

  /** The machine state a call starts from. */
  function CallState(s: State, entry: int, args: seq<int>): State
    requires Shaped(s) && |args| <= 7
  {
    s.(regs := ArgRegs(s.regs, args), vecs := seq(9, i => ZERO_VEC), accs := seq(3, i => ZERO_VEC),
       pc := entry, halted := false)
  }

  method ClearCallerSaved(sim: Sim)
    requires sim.Valid()
    modifies sim.Repr()
    ensures sim.Valid()
    ensures sim.Abs() == old(sim.Abs()).(regs := ArgRegs(old(sim.Abs()).regs, []),
      vecs := seq(9, i => ZERO_VEC), accs := seq(3, i => ZERO_VEC))
  {
    sim.regs.ResetCallerSaved();
    ValueZeros(27);
    assert ValuesOf(sim.regs.scalars[..]) == ArgRegs(old(sim.Abs()).regs, []);
  }

  method SetArgs(sim: Sim, ghost regs0: seq<int>, args: seq<int>) returns (ok: bool)
    requires sim.Valid() && |args| <= 7 && |regs0| == 27
    requires sim.Abs().regs == ArgRegs(regs0, [])
    modifies sim.Repr()
    ensures sim.Valid() && ok == ArgsFit(args)
    ensures sim.Abs() == old(sim.Abs()).(regs := ArgRegs(regs0, if ok then args else args[..FirstUnfit(args)]))
  {
    hide Value, Digits, FirstUnfit;
    for i := 0 to |args|
      invariant sim.Valid() && ArgsFit(args[..i])
      invariant sim.Abs() == old(sim.Abs()).(regs := ArgRegs(regs0, args[..i]))
    {
      if args[i] < -MAX27 || args[i] > MAX27 {
        assert forall k :: 0 <= k < i ==> args[..i][k] == args[k];
        return false;
      }
      var w := WordOf(args[i]);
      sim.WriteReg(i + 1, w);
      assert sim.Abs().regs == ArgRegs(regs0, args[..i + 1]);
    }
    assert args[..|args|] == args;
    ok := true;
  }

  /** The state a failed conversion leaves: the registers up to the argument that does not fit, or
      all of them if the entry address does not; neither pc nor the halted flag was touched. */
  function FailedCall(s: State, args: seq<int>): State
    requires Shaped(s) && |args| <= 7
  {
    s.(regs := ArgRegs(s.regs, if ArgsFit(args) then args else args[..FirstUnfit(args)]),
       vecs := seq(9, i => ZERO_VEC), accs := seq(3, i => ZERO_VEC))
  }

  /** Of such a call only the arguments before the first unfit one have arrived. */
  lemma FailedCallRegs(s: State, args: seq<int>, k: nat)
    requires Shaped(s) && |args| <= 7 && 1 <= k <= 7 && !ArgsFit(args)
    ensures FailedCall(s, args).regs[k] ==
      if (forall j :: 0 <= j < k && j < |args| ==> In27(args[j])) && k <= |args| then args[k - 1] else s.regs[k]
  {
    hide In27;
  }

  /** Sim::call_kernel. An invalid id or more than seven arguments is rejected before anything
      changes; an argument or an entry address wider than a word fails the conversion's assertion. */
  method CallKernel(sim: Sim, id: KernelId, args: seq<int>) returns (r: Call)
    requires sim.Valid()
    modifies sim.Repr()
    ensures sim.Valid()
    ensures r == Rejected <==> !id.valid || |args| > 7
    ensures r == Rejected ==> sim.Abs() == old(sim.Abs())
    ensures r != Rejected && !(In27(id.entryAddr) && ArgsFit(args)) ==>
      r == Faulted(AssertionFailed) && sim.Abs() == FailedCall(old(sim.Abs()), args)
    ensures r != Rejected && In27(id.entryAddr) && ArgsFit(args) ==>
      var o := RunToHalt(CallState(old(sim.Abs()), id.entryAddr, args));
      sim.Abs() == o.s && r == CallResult(o)
    ensures r.Returned? ==> r.value == sim.Abs().regs[1]
  {
    hide RunToHalt, FirstUnfit;
    if !id.valid || |args| > 7 { return Rejected; }
    ghost var s0 := sim.Abs();
    ClearCallerSaved(sim);
    var ok := SetArgs(sim, s0.regs, args);
    if !ok || id.entryAddr > MAX27 { return Faulted(AssertionFailed); }
    sim.SetPc(id.entryAddr);
    sim.regs.halted := false;
    assert sim.Abs() == CallState(s0, id.entryAddr, args);
    var fault := sim.Run();
    if fault.Some? { return Faulted(fault.value); }
    var w := sim.ReadReg(1);
    var v := ToInt(w);
    r := Returned(v);
  }

  function CallResult(o: Outcome): Call
    requires Shaped(o.s)
  {
    if o.fault.Some? then Faulted(o.fault.value) else Returned(o.s.regs[1])
  }
}
