/**
  The four components of an ISO 8583 message type indicator (MTI) and their
  composition. Each component owns one hexadecimal digit of the MTI:
  version `x___`, class `_x__`, function `__x_`, origin `___x`.
*/
module Iso {
  import opened Wrappers
  import Text

  /** The ISO 8583 edition, first MTI digit. */
  datatype Version = V1987 | V1993 | V2003 | National | Private {
    function Value(): (r: int)
      ensures r % 0x1000 == 0 && 0 <= r <= 0x9000
    {
      match this
      case V1987 => 0x0000
      case V1993 => 0x1000
      case V2003 => 0x2000
      case National => 0x8000
      case Private => 0x9000
    }
  }

  /** The overall purpose of the message, second MTI digit. */
  datatype MessageClass =
    | Authorization | Financial | FileActions | ReversalChargeback
    | Reconciliation | Administrative | FeeCollection | NetworkManagement
  {
    function Value(): (r: int)
      ensures r % 0x100 == 0 && 0x0100 <= r <= 0x0800
    {
      match this
      case Authorization => 0x0100
      case Financial => 0x0200
      case FileActions => 0x0300
      case ReversalChargeback => 0x0400
      case Reconciliation => 0x0500
      case Administrative => 0x0600
      case FeeCollection => 0x0700
      case NetworkManagement => 0x0800
    }
  }

  /** Request, response, advice, ..., third MTI digit. */
  datatype MessageFunction =
    | Request | RequestResponse | Advice | AdviceResponse | Notification
    | NotificationAck | Instruction | InstructionAck | Reserved8 | Reserved9
  {
    function Value(): (r: int)
      ensures r % 0x10 == 0 && 0x0000 <= r <= 0x0090
    {
      match this
      case Request => 0x0000
      case RequestResponse => 0x0010
      case Advice => 0x0020
      case AdviceResponse => 0x0030
      case Notification => 0x0040
      case NotificationAck => 0x0050
      case Instruction => 0x0060
      case InstructionAck => 0x0070
      case Reserved8 => 0x0080
      case Reserved9 => 0x0090
    }
  }

  /** Who originated the message, fourth MTI digit. */
  datatype MessageOrigin = Acquirer | AcquirerRepeat | Issuer | IssuerRepeat | Other | OtherRepeat {
    function Value(): (r: int)
      ensures 0x0000 <= r <= 0x0005
    {
      match this
      case Acquirer => 0x0000
      case AcquirerRepeat => 0x0001
      case Issuer => 0x0002
      case IssuerRepeat => 0x0003
      case Other => 0x0004
      case OtherRepeat => 0x0005
    }
  }

  /** The enum constants in declaration order, as Kotlin's `values()` lists them. */
  const Versions: seq<Version> := [V1987, V1993, V2003, National, Private]
  const Classes: seq<MessageClass> :=
    [Authorization, Financial, FileActions, ReversalChargeback,
     Reconciliation, Administrative, FeeCollection, NetworkManagement]
  const Functions: seq<MessageFunction> :=
    [Request, RequestResponse, Advice, AdviceResponse, Notification,
     NotificationAck, Instruction, InstructionAck, Reserved8, Reserved9]
  const Origins: seq<MessageOrigin> :=
    [Acquirer, AcquirerRepeat, Issuer, IssuerRepeat, Other, OtherRepeat]

  /** The four components of one MTI. */
  datatype Mti = Mti(version: Version, messageClass: MessageClass, messageFunction: MessageFunction, origin: MessageOrigin)

  /** `MTI.mtiValue`: the sum of the four component values. */
  function MtiValue(v: Version, c: MessageClass, f: MessageFunction, o: MessageOrigin): (r: int)
    ensures 0x0100 <= r <= 0x9895
  {
    v.Value() + c.Value() + f.Value() + o.Value()
  }

  /**
    Every component lives in its own hex digit, so each digit of the MTI is that
    component's digit.
  */
  lemma MtiDigits(v: Version, c: MessageClass, f: MessageFunction, o: MessageOrigin)
    ensures var r := MtiValue(v, c, f, o);
      && r / 0x1000 == v.Value() / 0x1000
      && (r / 0x100) % 0x10 == c.Value() / 0x100
      && (r / 0x10) % 0x10 == f.Value() / 0x10
      && r % 0x10 == o.Value()
  {
    HexDigits(v.Value() / 0x1000, c.Value() / 0x100, f.Value() / 0x10, o.Value());
  }

  /** A number written as four hex digits yields each digit back. */
  lemma HexDigits(a: int, b: int, c: int, d: int)
    requires 0 <= a < 0x10 && 0 <= b < 0x10 && 0 <= c < 0x10 && 0 <= d < 0x10
    ensures var r := a * 0x1000 + b * 0x100 + c * 0x10 + d;
      r / 0x1000 == a && (r / 0x100) % 0x10 == b && (r / 0x10) % 0x10 == c && r % 0x10 == d
  {
    var r := a * 0x1000 + b * 0x100 + c * 0x10 + d;
    assert r / 0x10 == a * 0x100 + b * 0x10 + c;
    assert r / 0x100 == a * 0x10 + b;
  }

  // ---------------------------------------------------------------------------
  // Inverse: reading the components back from an MTI

  function VersionOfDigit(d: int): Option<Version> {
    if d == 0x0 then Some(V1987) else if d == 0x1 then Some(V1993) else if d == 0x2 then Some(V2003)
    else if d == 0x8 then Some(National) else if d == 0x9 then Some(Private) else None
  }

  function ClassOfDigit(d: int): Option<MessageClass> {
    if 1 <= d <= 8 then Some(Classes[d - 1]) else None
  }

  function FunctionOfDigit(d: int): Option<MessageFunction> {
    if 0 <= d <= 9 then Some(Functions[d]) else None
  }

  function OriginOfDigit(d: int): Option<MessageOrigin> {
    if 0 <= d <= 5 then Some(Origins[d]) else None
  }

  /** Splits a message type into its components, if every digit names one. */
  function Decompose(t: int): Option<Mti> {
    if t < 0 || t > 0xFFFF then None
    else
      var v := VersionOfDigit(t / 0x1000);
      var c := ClassOfDigit((t / 0x100) % 0x10);
      var f := FunctionOfDigit((t / 0x10) % 0x10);
      var o := OriginOfDigit(t % 0x10);
      if v.Some? && c.Some? && f.Some? && o.Some? then Some(Mti(v.value, c.value, f.value, o.value)) else None
  }

  /** Each declared constant sits at its declaration position's multiple of its digit weight. */
  lemma DeclarationOrder()
    ensures forall i :: 0 <= i < |Classes| ==> Classes[i].Value() == 0x0100 * (i + 1)
    ensures forall i :: 0 <= i < |Functions| ==> Functions[i].Value() == 0x0010 * i
    ensures forall i :: 0 <= i < |Origins| ==> Origins[i].Value() == i
    ensures forall i :: 0 <= i < |Versions| ==> Versions[i].Value() == [0x0000, 0x1000, 0x2000, 0x8000, 0x9000][i]
  {
  }

  /** A repeat origin is its base origin plus one. */
  lemma RepeatOrigins()
    ensures AcquirerRepeat.Value() == Acquirer.Value() + 1
    ensures IssuerRepeat.Value() == Issuer.Value() + 1
    ensures OtherRepeat.Value() == Other.Value() + 1
  {
  }

  /** Reading a component's digit gives back that component, so values are pairwise distinct. */
  lemma DigitsIdentifyComponents(v: Version, c: MessageClass, f: MessageFunction, o: MessageOrigin)
    ensures VersionOfDigit(v.Value() / 0x1000) == Some(v)
    ensures ClassOfDigit(c.Value() / 0x100) == Some(c)
    ensures FunctionOfDigit(f.Value() / 0x10) == Some(f)
    ensures OriginOfDigit(o.Value()) == Some(o)
  {
  }

  /** `Decompose` inverts `MtiValue`. */
  lemma MtiRoundTrip(v: Version, c: MessageClass, f: MessageFunction, o: MessageOrigin)
    ensures Decompose(MtiValue(v, c, f, o)) == Some(Mti(v, c, f, o))
  {
    MtiDigits(v, c, f, o);
    DigitsIdentifyComponents(v, c, f, o);
  }

  /** Distinct component tuples never share an MTI. */
  lemma MtiInjective(a: Mti, b: Mti)
    requires MtiValue(a.version, a.messageClass, a.messageFunction, a.origin)
          == MtiValue(b.version, b.messageClass, b.messageFunction, b.origin)
    ensures a == b
  {
    MtiRoundTrip(a.version, a.messageClass, a.messageFunction, a.origin);
    MtiRoundTrip(b.version, b.messageClass, b.messageFunction, b.origin);
  }

  /** The worked example of the unit test: 2003 / administrative / notification / other. */
  lemma AdministrativeNotificationExample()
    ensures MtiValue(V2003, Administrative, Notification, Other) == 0x2644
    ensures MtiValue(V1993, Administrative, Notification, Other) == 0x1644
  {
  }

  /** A network-management request from the acquirer is `v800`. */
  lemma EchoRequestMti(v: Version)
    ensures MtiValue(v, NetworkManagement, Request, Acquirer) == v.Value() + 0x0800
  {
  }

  // ---------------------------------------------------------------------------
  // The sum is a bitwise OR

  /** Bitwise OR of two naturals, bit by bit from the least significant. */
  function BitOr(a: nat, b: nat): nat
    decreases a + b
  {
    if a == 0 then b
    else if b == 0 then a
    else 2 * BitOr(a / 2, b / 2) + (if a % 2 == 1 || b % 2 == 1 then 1 else 0)
  }

  /** Adding a number below `2^k` to a multiple of `2^k` sets disjoint bits: the sum is the OR. */
  lemma {:induction false} BitOrDisjoint(m: nat, b: nat, k: nat)
    requires b < Text.Pow(2, k)
    ensures BitOr(m * Text.Pow(2, k), b) == m * Text.Pow(2, k) + b
  {
    var a := m * Text.Pow(2, k);
    if k == 0 {
      assert b == 0;
    } else if a == 0 || b == 0 {
    } else {
      var p := Text.Pow(2, k - 1);
      assert a == 2 * (m * p);
      assert a / 2 == m * p && a % 2 == 0;
      assert b / 2 < p;
      BitOrDisjoint(m, b / 2, k - 1);
      assert BitOr(a, b) == 2 * (m * p + b / 2) + b % 2;
    }
  }

  /** The MTI sum equals the bitwise OR of its four components. */
  lemma MtiIsBitwiseOr(v: Version, c: MessageClass, f: MessageFunction, o: MessageOrigin)
    ensures MtiValue(v, c, f, o) == BitOr(BitOr(BitOr(v.Value(), c.Value()), f.Value()), o.Value())
  {
    var a, b, x, d := v.Value(), c.Value(), f.Value(), o.Value();
    DigitValuesOr(a, b, x, d);
    assert MtiValue(v, c, f, o) == a + b + x + d;
  }

  /** Values confined to the four hex digits, one each: their sum is their OR. */
  lemma DigitValuesOr(a: nat, b: nat, c: nat, d: nat)
    requires a % 0x1000 == 0 && b % 0x100 == 0 && b < 0x1000 && c % 0x10 == 0 && c < 0x100 && d < 0x10
    ensures BitOr(BitOr(BitOr(a, b), c), d) == a + b + c + d
  {
    var a', b', c' := a / 0x1000, b / 0x100, c / 0x10;
    assert a == a' * 0x1000 && b == b' * 0x100 && c == c' * 0x10;
    NibblesOr(a', b', c', d);
  }

  /** Four hex digits placed side by side: their sum is their OR. */
  lemma NibblesOr(a: nat, b: nat, c: nat, d: nat)
    requires b < 0x10 && c < 0x10 && d < 0x10
    ensures BitOr(BitOr(BitOr(a * 0x1000, b * 0x100), c * 0x10), d) == a * 0x1000 + b * 0x100 + c * 0x10 + d
  {
    Pow2Values();
    BitOrDisjoint(a, b * 0x100, 12);
    assert a * 0x1000 + b * 0x100 == (a * 0x10 + b) * 0x100;
    BitOrDisjoint(a * 0x10 + b, c * 0x10, 8);
    assert a * 0x1000 + b * 0x100 + c * 0x10 == (a * 0x100 + b * 0x10 + c) * 0x10;
    BitOrDisjoint(a * 0x100 + b * 0x10 + c, d, 4);
  }

  lemma Pow2Values()
    ensures Text.Pow(2, 4) == 0x10 && Text.Pow(2, 8) == 0x100 && Text.Pow(2, 12) == 0x1000
  {
    assert Text.Pow(2, 2) == 4;
    assert Text.Pow(2, 4) == 0x10;
    assert Text.Pow(2, 6) == 0x40;
    assert Text.Pow(2, 8) == 0x100;
    assert Text.Pow(2, 10) == 0x400;
  }

  // ---------------------------------------------------------------------------
  // Contrast: the superseded Java enum numbered versions 0x0..0x9

  /** The version digits of the older Java copy, which did not shift them into the thousands digit. */
  function LegacyVersionValue(v: Version): int {
    match v
    case V1987 => 0x0
    case V1993 => 0x1
    case V2003 => 0x2
    case National => 0x8
    case Private => 0x9
  }

  /** With the legacy digits the sum collides: 1993/authorization/request/acquirer looks like a repeat. */
  lemma LegacyVersionBreaksInjectivity()
    ensures LegacyVersionValue(V1993) + Authorization.Value() + Request.Value() + Acquirer.Value()
         == LegacyVersionValue(V1987) + Authorization.Value() + Request.Value() + AcquirerRepeat.Value()
  {
  }
}
