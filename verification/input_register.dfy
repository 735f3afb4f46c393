/**
 The register catalog of the energy meter: the closed set of 26 measurement
 kinds, in declaration order, and the total table that gives each kind its
 input-register address, display name and unit symbol.

 Every measurement is a 32-bit float spread over two consecutive 16-bit input
 registers, so the properties that matter are about the table as a whole:
 every kind has an entry, the two-register spans are even-aligned, strictly
 increasing in declaration order and pairwise disjoint, and none runs past
 the end of the 16-bit address space.
 */
module InputRegisters {
  import opened MachineInts

  /** The measurement kinds, in the order the enum declares them. */
  datatype InputRegister =
    | Phase1Line2NeutralVoltage
    | Phase2Line2NeutralVoltage
    | Phase3Line2NeutralVoltage
    | Phase1Current
    | Phase2Current
    | Phase3Current
    | Phase1Power
    | Phase2Power
    | Phase3Power
    | Phase1ApparentPower
    | Phase2ApparentPower
    | Phase3ApparentPower
    | Phase1ReactivePower
    | Phase2ReactivePower
    | Phase3ReactivePower
    | Phase1PowerFactor
    | Phase2PowerFactor
    | Phase3PowerFactor
    | Phase1PhaseAngle
    | Phase2PhaseAngle
    | Phase3PhaseAngle
    | AvgLineToNeutralVoltage
    | AvgLineToNeutralCurrent
    | SumOfLineCurrents
    | TotalSystemPower
    | FrequencyVoltageLines

  /** The descriptor of one measurement: where it lives and how it is shown. */
  datatype InputRegisterValue = InputRegisterValue(address: u16, name: string, unitSymbol: string)

  /** Number of measurement kinds. */
  const KindCount: nat := 26

  /** Number of consecutive 16-bit registers that hold one measurement. */
  const RegistersPerValue: nat := 2

  /** The highest address in the table (the frequency register). */
  const MaxAddress: u16 := 0x0046

  /** Position of a kind in declaration order, counting from 0. */
  function Ordinal(k: InputRegister): (r: nat)
    ensures r < KindCount
  {
    match k
    case Phase1Line2NeutralVoltage => 0
    case Phase2Line2NeutralVoltage => 1
    case Phase3Line2NeutralVoltage => 2
    case Phase1Current => 3
    case Phase2Current => 4
    case Phase3Current => 5
    case Phase1Power => 6
    case Phase2Power => 7
    case Phase3Power => 8
    case Phase1ApparentPower => 9
    case Phase2ApparentPower => 10
    case Phase3ApparentPower => 11
    case Phase1ReactivePower => 12
    case Phase2ReactivePower => 13
    case Phase3ReactivePower => 14
    case Phase1PowerFactor => 15
    case Phase2PowerFactor => 16
    case Phase3PowerFactor => 17
    case Phase1PhaseAngle => 18
    case Phase2PhaseAngle => 19
    case Phase3PhaseAngle => 20
    case AvgLineToNeutralVoltage => 21
    case AvgLineToNeutralCurrent => 22
    case SumOfLineCurrents => 23
    case TotalSystemPower => 24
    case FrequencyVoltageLines => 25
  }

  /** The kind declared at position `i`; the inverse of `Ordinal`. */
  function KindAt(i: nat): (k: InputRegister)
    requires i < KindCount
    ensures Ordinal(k) == i
  {
    if i < 3 then
      match i
      case 0 => Phase1Line2NeutralVoltage
      case 1 => Phase2Line2NeutralVoltage
      case _ => Phase3Line2NeutralVoltage
    else if i < 6 then
      match i
      case 3 => Phase1Current
      case 4 => Phase2Current
      case _ => Phase3Current
    else if i < 9 then
      match i
      case 6 => Phase1Power
      case 7 => Phase2Power
      case _ => Phase3Power
    else if i < 12 then
      match i
      case 9 => Phase1ApparentPower
      case 10 => Phase2ApparentPower
      case _ => Phase3ApparentPower
    else if i < 15 then
      match i
      case 12 => Phase1ReactivePower
      case 13 => Phase2ReactivePower
      case _ => Phase3ReactivePower
    else if i < 18 then
      match i
      case 15 => Phase1PowerFactor
      case 16 => Phase2PowerFactor
      case _ => Phase3PowerFactor
    else if i < 21 then
      match i
      case 18 => Phase1PhaseAngle
      case 19 => Phase2PhaseAngle
      case _ => Phase3PhaseAngle
    else
      match i
      case 21 => AvgLineToNeutralVoltage
      case 22 => AvgLineToNeutralCurrent
      case 23 => SumOfLineCurrents
      case 24 => TotalSystemPower
      case _ => FrequencyVoltageLines
  }

  /** `Ordinal` and `KindAt` are mutually inverse: every kind has exactly one position. */
  lemma KindAtOrdinal(k: InputRegister)
    ensures KindAt(Ordinal(k)) == k
  {
  }

  /** All kinds in declaration order, as the derived enum iterator yields them. */
  function AllKinds(): (ks: seq<InputRegister>)
    ensures |ks| == KindCount
    ensures forall i :: 0 <= i < |ks| ==> Ordinal(ks[i]) == i
    ensures forall k :: ks[Ordinal(k)] == k
  {
    seq(KindCount, i requires 0 <= i < KindCount => KindAt(i))
  }

  /** The three power-factor kinds: dimensionless, shown without a unit. */
  predicate IsPowerFactor(k: InputRegister)
  {
    k == Phase1PowerFactor || k == Phase2PowerFactor || k == Phase3PowerFactor
  }

  /**
   The descriptor table. It is total: there is no error path, every kind has
   an entry. The table is written as one column per field below; each entry's
   two-register span starts on an even address and ends no later than
   `MaxAddress + 1`, inside the 16-bit address space.
   */
  function GenerateInputRegister(k: InputRegister): (r: InputRegisterValue)
    ensures r.address % RegistersPerValue == 0
    ensures r.address <= MaxAddress
    ensures r.address + RegistersPerValue - 1 < WordRange
  {
    InputRegisterValue(Address(k), DisplayName(k), UnitSymbol(k))
  }

  /** Start address of a kind's two-register span (the `address` column). */
  function Address(k: InputRegister): (a: u16)
    ensures a % RegistersPerValue == 0
    ensures a <= MaxAddress
  {
    match k
    case Phase1Line2NeutralVoltage => 0x0000
    case Phase2Line2NeutralVoltage => 0x0002
    case Phase3Line2NeutralVoltage => 0x0004
    case Phase1Current => 0x0006
    case Phase2Current => 0x0008
    case Phase3Current => 0x000A
    case Phase1Power => 0x000C
    case Phase2Power => 0x000E
    case Phase3Power => 0x0010
    case Phase1ApparentPower => 0x0012
    case Phase2ApparentPower => 0x0014
    case Phase3ApparentPower => 0x0016
    case Phase1ReactivePower => 0x0018
    case Phase2ReactivePower => 0x001A
    case Phase3ReactivePower => 0x001C
    case Phase1PowerFactor => 0x001E
    case Phase2PowerFactor => 0x0020
    case Phase3PowerFactor => 0x0022
    case Phase1PhaseAngle => 0x0024
    case Phase2PhaseAngle => 0x0026
    case Phase3PhaseAngle => 0x0028
    case AvgLineToNeutralVoltage => 0x002A
    case AvgLineToNeutralCurrent => 0x002E
    case SumOfLineCurrents => 0x0030
    case TotalSystemPower => 0x0034
    case FrequencyVoltageLines => 0x0046
  }

  /** Human-readable label of a kind (the `name` column); never empty. */
  function DisplayName(k: InputRegister): (name: string)
    ensures |name| > 0
  {
    match k
    case Phase1Line2NeutralVoltage => "Phase 1 line to neutral voltage"
    case Phase2Line2NeutralVoltage => "Phase 2 line to neutral voltage"
    case Phase3Line2NeutralVoltage => "Phase 3 line to neutral voltage"
    case Phase1Current => "Phase 1 current"
    case Phase2Current => "Phase 2 current"
    case Phase3Current => "Phase 3 current"
    case Phase1Power => "Phase 1 power"
    case Phase2Power => "Phase 2 power"
    case Phase3Power => "Phase 3 power"
    case Phase1ApparentPower => "Phase 1 apparent power"
    case Phase2ApparentPower => "Phase 2 apparent power"
    case Phase3ApparentPower => "Phase 3 apparent power"
    case Phase1ReactivePower => "Phase 1 reactive power"
    case Phase2ReactivePower => "Phase 2 reactive power"
    case Phase3ReactivePower => "Phase 3 reactive power"
    case Phase1PowerFactor => "Phase 1 power factor"
    case Phase2PowerFactor => "Phase 2 power factor"
    case Phase3PowerFactor => "Phase 3 power factor"
    case Phase1PhaseAngle => "Phase 1 phase angle"
    case Phase2PhaseAngle => "Phase 2 phase angle"
    case Phase3PhaseAngle => "Phase 3 phase angle"
    case AvgLineToNeutralVoltage => "Average line to neutral voltage"
    case AvgLineToNeutralCurrent => "Average line to neutral current"
    case SumOfLineCurrents => "Sum of line currents"
    case TotalSystemPower => "Total system power"
    case FrequencyVoltageLines => "Frequency voltage"
  }

  /**
   Unit appended to the printed value (the `unit_symbol` column). It is empty
   exactly for the three dimensionless power factors.
   */
  function UnitSymbol(k: InputRegister): (unit: string)
    ensures unit == [] <==> IsPowerFactor(k)
  {
    match k
    case Phase1Line2NeutralVoltage => "V"
    case Phase2Line2NeutralVoltage => "V"
    case Phase3Line2NeutralVoltage => "V"
    case Phase1Current => "A"
    case Phase2Current => "A"
    case Phase3Current => "A"
    case Phase1Power => "W"
    case Phase2Power => "W"
    case Phase3Power => "W"
    case Phase1ApparentPower => "VA"
    case Phase2ApparentPower => "VA"
    case Phase3ApparentPower => "VA"
    case Phase1ReactivePower => "VAr"
    case Phase2ReactivePower => "VAr"
    case Phase3ReactivePower => "VAr"
    case Phase1PowerFactor => ""
    case Phase2PowerFactor => ""
    case Phase3PowerFactor => ""
    case Phase1PhaseAngle => "°"
    case Phase2PhaseAngle => "°"
    case Phase3PhaseAngle => "°"
    case AvgLineToNeutralVoltage => "V"
    case AvgLineToNeutralCurrent => "A"
    case SumOfLineCurrents => "A"
    case TotalSystemPower => "W"
    case FrequencyVoltageLines => "Hz"
  }

  /** Two spans `[a, a + 1]` and `[b, b + 1]` with `a` before `b` share no register. */
  predicate SpanBefore(a: u16, b: u16)
  {
    a + RegistersPerValue - 1 < b
  }

  /** Neighbours in declaration order: the earlier span ends before the later one starts. */
  lemma AdjacentSpansOrdered(i: nat)
    requires i + 1 < KindCount
    ensures SpanBefore(Address(KindAt(i)), Address(KindAt(i + 1)))
  {
  }

  /** Any two positions in declaration order: the earlier span ends before the later one starts. */
  lemma {:induction false} SpansOrderedBetween(i: nat, j: nat)
    requires i < j < KindCount
    ensures SpanBefore(Address(KindAt(i)), Address(KindAt(j)))
    decreases j - i
  {
    AdjacentSpansOrdered(j - 1);
    if i + 1 < j {
      SpansOrderedBetween(i, j - 1);
    }
  }

  /** Addresses strictly increase in declaration order, with room for a whole span in between. */
  lemma AddressesIncreasing(a: InputRegister, b: InputRegister)
    requires Ordinal(a) < Ordinal(b)
    ensures Address(a) < Address(b)
    ensures SpanBefore(Address(a), Address(b))
  {
    KindAtOrdinal(a);
    KindAtOrdinal(b);
    SpansOrderedBetween(Ordinal(a), Ordinal(b));
  }

  /** Two kinds share an address exactly when they are the same kind. */
  lemma AddressesDistinct(a: InputRegister, b: InputRegister)
    ensures Address(a) == Address(b) <==> a == b
  {
    if Ordinal(a) < Ordinal(b) {
      AddressesIncreasing(a, b);
    } else if Ordinal(b) < Ordinal(a) {
      AddressesIncreasing(b, a);
    } else {
      KindAtOrdinal(a);
      KindAtOrdinal(b);
    }
  }

  /** The two-register spans of distinct kinds never overlap. */
  lemma SpansDisjoint(a: InputRegister, b: InputRegister)
    requires a != b
    ensures SpanBefore(Address(a), Address(b)) || SpanBefore(Address(b), Address(a))
  {
    AddressesDistinct(a, b);
    if Ordinal(a) < Ordinal(b) {
      AddressesIncreasing(a, b);
    } else if Ordinal(b) < Ordinal(a) {
      AddressesIncreasing(b, a);
    } else {
      KindAtOrdinal(a);
      KindAtOrdinal(b);
    }
  }

  /** The frequency register is the last one and holds the largest address. */
  lemma FrequencyIsLast(k: InputRegister)
    ensures Address(k) <= Address(FrequencyVoltageLines) == MaxAddress
    ensures Ordinal(k) <= Ordinal(FrequencyVoltageLines) == KindCount - 1
  {
  }

  /** Two spot entries of the table, as the table lists them. */
  lemma SpotEntries()
    ensures GenerateInputRegister(Phase1Current) == InputRegisterValue(0x0006, "Phase 1 current", "A")
    ensures GenerateInputRegister(FrequencyVoltageLines) == InputRegisterValue(0x0046, "Frequency voltage", "Hz")
  {
  }
}
