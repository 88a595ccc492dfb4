/**
 * The direct-mapped translation cache of the hart (src/tlb.rs): 4096 slots,
 * each holding at most one entry, indexed by the low 12 bits of the virtual
 * page number.
 */
module Tlb {
  import opened Arch

  const TLB_SIZE: nat := 4096
  const TLB_MASK: bv32 := 0xfff

  /** A cached translation: the page number it maps, the physical page base it
      maps to, and the privilege it was walked under. */
  datatype TlbEntry = TlbEntry(prv: Priv, ppn: bv32, vpn: bv32)

  /** The contents of the table, one optional entry per slot. */
  type Entries = s: seq<Option<TlbEntry>> | |s| == TLB_SIZE witness seq(TLB_SIZE, _ => None)

  /** `TlbEntry::new`: the virtual page number is the address without its
      page offset. */
  function NewEntry(va: bv32, ppn: bv32, prv: Priv): (e: TlbEntry)
    ensures e.vpn == va >> 12 && e.ppn == ppn && e.prv == prv
    ensures e.vpn <= 0xF_FFFF
  {
    TlbEntry(prv, ppn, va >> 12)
  }

  /** The slot a virtual page number lives in. */
  function Slot(vpn: bv32): (i: nat)
    ensures i < TLB_SIZE
  {
    (vpn & TLB_MASK) as nat
  }

  /** The empty table (`Tlb::default`, `clear`). */
  const Empty: Entries := seq(TLB_SIZE, _ => None)

  /** `register_entry` on the abstract contents. */
  function Register(es: Entries, e: TlbEntry): Entries
  {
    es[Slot(e.vpn) := Some(e)]
  }

  /** `lookup_ppn` on the abstract contents. */
  function Lookup(es: Entries, va: bv32, prv: Priv): Option<TlbEntry>
  {
    var vpn := va >> 12;
    match es[Slot(vpn)]
    case Some(e) => if e.vpn == vpn && e.prv == prv then Some(e) else None
    case None => None
  }

  /** A lookup finds an entry exactly when the slot of the page holds an entry
      for that very page and privilege. */
  lemma LookupIff(es: Entries, va: bv32, prv: Priv, e: TlbEntry)
    ensures Lookup(es, va, prv) == Some(e) <==>
      es[Slot(va >> 12)] == Some(e) && e.vpn == va >> 12 && e.prv == prv
  {
  }

  /** Registering puts the entry in its slot and leaves every other slot as it was. */
  lemma RegisterSlots(es: Entries, e: TlbEntry, i: nat)
    requires i < TLB_SIZE
    ensures Register(es, e)[Slot(e.vpn)] == Some(e)
    ensures i != Slot(e.vpn) ==> Register(es, e)[i] == es[i]
  {
  }

  /** After registering `NewEntry(va, ppn, p)`, any address on the same page
      looked up at privilege `p` yields `ppn`. */
  lemma LookupAfterRegister(es: Entries, va: bv32, va2: bv32, ppn: bv32, p: Priv)
    requires va2 >> 12 == va >> 12
    ensures Lookup(Register(es, NewEntry(va, ppn, p)), va2, p) == Some(NewEntry(va, ppn, p))
    ensures Lookup(Register(es, NewEntry(va, ppn, p)), va2, p).value.ppn == ppn
  {
    var e := NewEntry(va, ppn, p);
    assert e.vpn == va2 >> 12;
    assert Slot(e.vpn) == Slot(va2 >> 12);
    var r := Register(es, e);
    assert r[Slot(e.vpn)] == Some(e);
  }

  /** Registering an entry does not change lookups that land in another slot. */
  lemma LookupAfterRegisterElsewhere(es: Entries, e: TlbEntry, va: bv32, p: Priv)
    requires Slot(va >> 12) != Slot(e.vpn)
    ensures Lookup(Register(es, e), va, p) == Lookup(es, va, p)
  {
  }

  /** Nothing is found in the empty table. */
  lemma LookupEmpty(va: bv32, p: Priv)
    ensures Lookup(Empty, va, p) == None
  {
  }

  /** The table as the hart owns it: a fixed array of slots updated in place. */
  class Tlb {
    const entries: array<Option<TlbEntry>>

    ghost predicate Valid()
      reads this
    {
      entries.Length == TLB_SIZE
    }

    /** The abstract contents. */
    function Contents(): Entries
      requires Valid()
      reads this, entries
    {
      entries[..]
    }

    /** `Tlb::default`: every slot empty. */
    constructor ()
      ensures Valid() && Contents() == Empty
      ensures fresh(entries)
    {
      entries := new Option<TlbEntry>[TLB_SIZE](_ => None);
    }

    /** `register_entry`: overwrite the slot of the entry's page. */
    method RegisterEntry(e: TlbEntry)
      requires Valid()
      modifies entries
      ensures Valid() && Contents() == Register(old(Contents()), e)
    {
      entries[Slot(e.vpn)] := Some(e);
    }

    /** `lookup_ppn`: a read of the one slot the page can live in. */
    function LookupPpn(va: bv32, prv: Priv): (r: Option<TlbEntry>)
      requires Valid()
      reads this, entries
      ensures r == Lookup(Contents(), va, prv)
      ensures r.Some? ==> r.value.vpn == va >> 12 && r.value.prv == prv
    {
      var vpn := va >> 12;
      var i := Slot(vpn);
      if entries[i].Some? && entries[i].value.vpn == vpn && entries[i].value.prv == prv then
        entries[i]
      else
        None
    }

    /** `clear`: every slot emptied. */
    method Clear()
      requires Valid()
      modifies entries
      ensures Valid() && Contents() == Empty
    {
      forall i | 0 <= i < entries.Length {
        entries[i] := None;
      }
    }
  }
}
