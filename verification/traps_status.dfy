/** The simulator's status word field by field: what clearing, setting and copying its bits do to the
    register file's record of it. */
module TrapsStatus {
  import opened TrapsModel

  /** Two words that differ in one field at most. */
  predicate SameOff(s: bv32, t: bv32, field: bv32) { s & !field == t & !field }

  lemma MaskWithin(s: bv32, field: bv32, mask: bv32)
    requires field & mask == 0
    ensures (s & !field) & mask == s & mask
  {
  }

  lemma OtherBit(s: bv32, t: bv32, field: bv32, mask: bv32)
    requires SameOff(s, t, field) && field & mask == 0
    ensures Field(t, mask) == Field(s, mask)
  {
    MaskWithin(s, field, mask);
    MaskWithin(t, field, mask);
  }

  lemma OtherMpp(s: bv32, t: bv32, field: bv32)
    requires SameOff(s, t, field) && field & SR_MPP == 0
    ensures GetMpp(t) == GetMpp(s)
  {
    hide GetMpp;
    MaskWithin(s, field, SR_MPP);
    MaskWithin(t, field, SR_MPP);
    MppOfMask(s);
    MppOfMask(t);
  }

  lemma MppOfMask(s: bv32)
    ensures GetMpp(s) == (s & SR_MPP) >> 11
  {
  }

  lemma OtherRest(s: bv32, t: bv32, field: bv32)
    requires SameOff(s, t, field) && field & !SR_FIELDS == 0
    ensures Rest(t) == Rest(s)
  {
    MaskWithin(s, field, !SR_FIELDS);
    MaskWithin(t, field, !SR_FIELDS);
  }

  lemma Clears(s: bv32, bit: bv32)
    ensures SameOff(s, Clear(s, bit), bit) && !Field(Clear(s, bit), bit)
  {
  }

  lemma OrWithin(s: bv32, x: bv32, field: bv32)
    requires x & !field == 0
    ensures SameOff(s, s | x, field)
  {
    assert (s | x) & !field == (s & !field) | (x & !field);
  }

  lemma OrTakes(s: bv32, x: bv32, field: bv32)
    requires x & !field == 0 && s & field == 0
    ensures (s | x) & field == x
  {
  }

  lemma OrBit(s: bv32, bit: bv32)
    requires bit != 0
    ensures Field(s | bit, bit)
  {
    assert (s | bit) & bit == bit;
  }

  lemma NotWithin(bit: bv32)
    ensures bit & !bit == 0 && 0 & !bit == 0
  {
  }

  lemma OrZero(s: bv32)
    ensures s | 0 == s
  {
  }

  lemma Sets(s: bv32, condition: bool, bit: bv32)
    requires bit != 0 && (condition || !Field(s, bit))
    ensures SameOff(s, SetIf(s, condition, bit), bit) && Field(SetIf(s, condition, bit), bit) == condition
  {
    hide SameOff, Field;
    NotWithin(bit);
    OrZero(s);
    if condition {
      OrWithin(s, bit, bit);
      OrBit(s, bit);
    } else {
      OrWithin(s, 0, bit);
    }
  }

  lemma OnlySie(s: bv32, t: bv32)
    requires SameOff(s, t, SR_SIE)
    ensures StatusOf(t) == StatusOf(s).(sie := Field(t, SR_SIE))
  {
    hide SameOff, Field, GetMpp, Rest;
    OtherBit(s, t, SR_SIE, SR_MIE);
    OtherBit(s, t, SR_SIE, SR_SPIE);
    OtherBit(s, t, SR_SIE, SR_MPIE);
    OtherBit(s, t, SR_SIE, SR_SPP);
    OtherMpp(s, t, SR_SIE);
    OtherRest(s, t, SR_SIE);
  }

  lemma ClearSie(s: bv32)
    ensures StatusOf(Clear(s, SR_SIE)) == StatusOf(s).(sie := false)
  {
    hide SameOff, Field, StatusOf, Clear;
    Clears(s, SR_SIE);
    OnlySie(s, Clear(s, SR_SIE));
  }

  lemma SetSie(s: bv32, condition: bool)
    requires !Field(s, SR_SIE) || condition
    ensures StatusOf(SetIf(s, condition, SR_SIE)) == StatusOf(s).(sie := condition)
  {
    hide SameOff, Field, StatusOf, SetIf;
    Sets(s, condition, SR_SIE);
    OnlySie(s, SetIf(s, condition, SR_SIE));
  }

  lemma OnlyMie(s: bv32, t: bv32)
    requires SameOff(s, t, SR_MIE)
    ensures StatusOf(t) == StatusOf(s).(mie := Field(t, SR_MIE))
  {
    hide SameOff, Field, GetMpp, Rest;
    OtherBit(s, t, SR_MIE, SR_SIE);
    OtherBit(s, t, SR_MIE, SR_SPIE);
    OtherBit(s, t, SR_MIE, SR_MPIE);
    OtherBit(s, t, SR_MIE, SR_SPP);
    OtherMpp(s, t, SR_MIE);
    OtherRest(s, t, SR_MIE);
  }

  lemma ClearMie(s: bv32)
    ensures StatusOf(Clear(s, SR_MIE)) == StatusOf(s).(mie := false)
  {
    hide SameOff, Field, StatusOf, Clear;
    Clears(s, SR_MIE);
    OnlyMie(s, Clear(s, SR_MIE));
  }

  lemma SetMie(s: bv32, condition: bool)
    requires !Field(s, SR_MIE) || condition
    ensures StatusOf(SetIf(s, condition, SR_MIE)) == StatusOf(s).(mie := condition)
  {
    hide SameOff, Field, StatusOf, SetIf;
    Sets(s, condition, SR_MIE);
    OnlyMie(s, SetIf(s, condition, SR_MIE));
  }

  lemma OnlySpie(s: bv32, t: bv32)
    requires SameOff(s, t, SR_SPIE)
    ensures StatusOf(t) == StatusOf(s).(spie := Field(t, SR_SPIE))
  {
    hide SameOff, Field, GetMpp, Rest;
    OtherBit(s, t, SR_SPIE, SR_SIE);
    OtherBit(s, t, SR_SPIE, SR_MIE);
    OtherBit(s, t, SR_SPIE, SR_MPIE);
    OtherBit(s, t, SR_SPIE, SR_SPP);
    OtherMpp(s, t, SR_SPIE);
    OtherRest(s, t, SR_SPIE);
  }

  lemma ClearSpie(s: bv32)
    ensures StatusOf(Clear(s, SR_SPIE)) == StatusOf(s).(spie := false)
  {
    hide SameOff, Field, StatusOf, Clear;
    Clears(s, SR_SPIE);
    OnlySpie(s, Clear(s, SR_SPIE));
  }

  lemma SetSpie(s: bv32, condition: bool)
    requires !Field(s, SR_SPIE) || condition
    ensures StatusOf(SetIf(s, condition, SR_SPIE)) == StatusOf(s).(spie := condition)
  {
    hide SameOff, Field, StatusOf, SetIf;
    Sets(s, condition, SR_SPIE);
    OnlySpie(s, SetIf(s, condition, SR_SPIE));
  }

  lemma OnlyMpie(s: bv32, t: bv32)
    requires SameOff(s, t, SR_MPIE)
    ensures StatusOf(t) == StatusOf(s).(mpie := Field(t, SR_MPIE))
  {
    hide SameOff, Field, GetMpp, Rest;
    OtherBit(s, t, SR_MPIE, SR_SIE);
    OtherBit(s, t, SR_MPIE, SR_MIE);
    OtherBit(s, t, SR_MPIE, SR_SPIE);
    OtherBit(s, t, SR_MPIE, SR_SPP);
    OtherMpp(s, t, SR_MPIE);
    OtherRest(s, t, SR_MPIE);
  }

  lemma ClearMpie(s: bv32)
    ensures StatusOf(Clear(s, SR_MPIE)) == StatusOf(s).(mpie := false)
  {
    hide SameOff, Field, StatusOf, Clear;
    Clears(s, SR_MPIE);
    OnlyMpie(s, Clear(s, SR_MPIE));
  }

  lemma SetMpie(s: bv32, condition: bool)
    requires !Field(s, SR_MPIE) || condition
    ensures StatusOf(SetIf(s, condition, SR_MPIE)) == StatusOf(s).(mpie := condition)
  {
    hide SameOff, Field, StatusOf, SetIf;
    Sets(s, condition, SR_MPIE);
    OnlyMpie(s, SetIf(s, condition, SR_MPIE));
  }

  lemma OnlySpp(s: bv32, t: bv32)
    requires SameOff(s, t, SR_SPP)
    ensures StatusOf(t) == StatusOf(s).(spp := Field(t, SR_SPP))
  {
    hide SameOff, Field, GetMpp, Rest;
    OtherBit(s, t, SR_SPP, SR_SIE);
    OtherBit(s, t, SR_SPP, SR_MIE);
    OtherBit(s, t, SR_SPP, SR_SPIE);
    OtherBit(s, t, SR_SPP, SR_MPIE);
    OtherMpp(s, t, SR_SPP);
    OtherRest(s, t, SR_SPP);
  }

  lemma ClearSpp(s: bv32)
    ensures StatusOf(Clear(s, SR_SPP)) == StatusOf(s).(spp := false)
  {
    hide SameOff, Field, StatusOf, Clear;
    Clears(s, SR_SPP);
    OnlySpp(s, Clear(s, SR_SPP));
  }

  lemma SetSpp(s: bv32, condition: bool)
    requires !Field(s, SR_SPP) || condition
    ensures StatusOf(SetIf(s, condition, SR_SPP)) == StatusOf(s).(spp := condition)
  {
    hide SameOff, Field, StatusOf, SetIf;
    Sets(s, condition, SR_SPP);
    OnlySpp(s, SetIf(s, condition, SR_SPP));
  }

  lemma OnlyMpp(s: bv32, t: bv32)
    requires SameOff(s, t, SR_MPP)
    ensures StatusOf(t) == StatusOf(s).(mpp := GetMpp(t))
  {
    hide SameOff, Field, GetMpp, Rest;
    OtherBit(s, t, SR_MPP, SR_SIE);
    OtherBit(s, t, SR_MPP, SR_MIE);
    OtherBit(s, t, SR_MPP, SR_SPIE);
    OtherBit(s, t, SR_MPP, SR_MPIE);
    OtherBit(s, t, SR_MPP, SR_SPP);
    OtherRest(s, t, SR_MPP);
  }

  lemma ClearMpp(s: bv32)
    ensures StatusOf(Clear(s, SR_MPP)) == StatusOf(s).(mpp := USER)
  {
    hide SameOff, Field, StatusOf, Clear, GetMpp;
    Clears(s, SR_MPP);
    MppOfMask(Clear(s, SR_MPP));
    assert Clear(s, SR_MPP) & SR_MPP == 0 by { NoMpp(s); }
    OnlyMpp(s, Clear(s, SR_MPP));
  }

  lemma NoMpp(s: bv32)
    ensures Clear(s, SR_MPP) & SR_MPP == 0
  {
  }

  lemma SetMpp(s: bv32, priv: Priv)
    requires s & SR_MPP == 0 && priv <= MACHINE
    ensures StatusOf(OrMpp(s, priv)) == StatusOf(s).(mpp := priv)
  {
    hide SameOff, Field, StatusOf, OrMpp, GetMpp;
    OrMppFits(s, priv);
    OnlyMpp(s, OrMpp(s, priv));
  }

  lemma OrMppFits(s: bv32, priv: Priv)
    requires s & SR_MPP == 0 && priv <= MACHINE
    ensures SameOff(s, OrMpp(s, priv), SR_MPP) && GetMpp(OrMpp(s, priv)) == priv
  {
    hide SameOff, GetMpp;
    MppShifted(priv);
    OrWithin(s, priv << 11, SR_MPP);
    OrTakes(s, priv << 11, SR_MPP);
    MppOfMask(OrMpp(s, priv));
  }

  lemma MppShifted(priv: Priv)
    requires priv <= MACHINE
    ensures (priv << 11) & !SR_MPP == 0 && (priv << 11) >> 11 == priv
  {
  }

  lemma CopySieToSpie(s: bv32)
    ensures StatusOf(CopyBit(s, SR_SIE, SR_SPIE)) == StatusOf(s).(spie := StatusOf(s).sie)
  {
    hide Clear, SetIf, Field, GetMpp, Rest, SameOff;
    Clears(s, SR_SPIE);
    ClearSpie(s);
    SetSpie(Clear(s, SR_SPIE), Field(Clear(s, SR_SPIE), SR_SIE));
  }

  lemma CopyMieToMpie(s: bv32)
    ensures StatusOf(CopyBit(s, SR_MIE, SR_MPIE)) == StatusOf(s).(mpie := StatusOf(s).mie)
  {
    hide Clear, SetIf, Field, GetMpp, Rest, SameOff;
    Clears(s, SR_MPIE);
    ClearMpie(s);
    SetMpie(Clear(s, SR_MPIE), Field(Clear(s, SR_MPIE), SR_MIE));
  }

  lemma CopyMpieToMie(s: bv32)
    ensures StatusOf(CopyBit(s, SR_MPIE, SR_MIE)) == StatusOf(s).(mie := StatusOf(s).mpie)
  {
    hide Clear, SetIf, Field, GetMpp, Rest, SameOff;
    Clears(s, SR_MIE);
    ClearMie(s);
    SetMie(Clear(s, SR_MIE), Field(Clear(s, SR_MIE), SR_MPIE));
  }

  lemma CopySpieToSie(s: bv32)
    ensures StatusOf(CopyBit(s, SR_SPIE, SR_SIE)) == StatusOf(s).(sie := StatusOf(s).spie)
  {
    hide Clear, SetIf, Field, GetMpp, Rest, SameOff;
    Clears(s, SR_SIE);
    ClearSie(s);
    SetSie(Clear(s, SR_SIE), Field(Clear(s, SR_SIE), SR_SPIE));
  }

  lemma SaveSuperFields(s: bv32, priv: Priv)
    ensures StatusOf(SaveSuper(s, priv)) == StatusOf(s).(spie := StatusOf(s).sie, spp := priv == SUPER, sie := false)
  {
    hide StatusOf, CopyBit, Clear, SetIf, SameOff, Field;
    var copied := CopyBit(s, SR_SIE, SR_SPIE);
    CopySieToSpie(s);
    ClearSie(copied);
    Clears(Clear(copied, SR_SIE), SR_SPP);
    ClearSpp(Clear(copied, SR_SIE));
    SetSpp(Clear(Clear(copied, SR_SIE), SR_SPP), priv == SUPER);
  }

  lemma SaveMachineFields(s: bv32, priv: Priv)
    requires priv <= MACHINE
    ensures StatusOf(SaveMachine(s, priv)) == StatusOf(s).(mpie := StatusOf(s).mie, mpp := priv, mie := false)
  {
    hide StatusOf, CopyBit, Clear, OrMpp, SameOff, Field;
    var copied := CopyBit(s, SR_MIE, SR_MPIE);
    CopyMieToMpie(s);
    ClearMie(copied);
    NoMpp(Clear(copied, SR_MIE));
    ClearMpp(Clear(copied, SR_MIE));
    SetMpp(Clear(Clear(copied, SR_MIE), SR_MPP), priv);
  }

  lemma PopMachineFields(s: bv32)
    ensures StatusOf(PopMachine(s)) == StatusOf(s).(mie := StatusOf(s).mpie, mpie := true, mpp := USER)
  {
    hide StatusOf, CopyBit, Clear, SetIf, SameOff, Field;
    CopyMpieToMie(s);
    SetMpie(CopyBit(s, SR_MPIE, SR_MIE), true);
    ClearMpp(SetIf(CopyBit(s, SR_MPIE, SR_MIE), true, SR_MPIE));
  }

  lemma PopSuperFields(s: bv32)
    ensures StatusOf(PopSuper(s)) == StatusOf(s).(sie := StatusOf(s).spie, spie := true, spp := false)
  {
    hide StatusOf, CopyBit, Clear, SetIf, SameOff, Field;
    CopySpieToSie(s);
    SetSpie(CopyBit(s, SR_SPIE, SR_SIE), true);
    ClearSpp(SetIf(CopyBit(s, SR_SPIE, SR_SIE), true, SR_SPIE));
  }
}
