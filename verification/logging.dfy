/**
  `IsoMessageLoggingHandler`: how a message is rendered for the log. Unless
  sensitive data may be printed, the PAN (field 2) is masked to its first six and
  last four characters and the configured fields are replaced by "***". The field
  descriptions, which the handler loads from a properties file, are a lookup
  passed in.
*/
module Logging {
  import opened Wrappers
  import opened Text
  import opened Message

  const MASK_CHAR: char := '*'
  const MASKED_VALUE: string := "***"

  /** PAN extended, track 2, track 3 and track 1. */
  const DEFAULT_MASKED_FIELDS: seq<int> := [34, 35, 36, 45]

  /** The handler's settings: `printSensitiveData`, `printFieldDescriptions` and `maskedFields`. */
  datatype LoggingHandler = LoggingHandler(printSensitiveData: bool, printFieldDescriptions: bool, maskedFields: seq<int>)

  /** `k` mask characters. */
  function Stars(k: nat): (s: string)
    ensures |s| == k && forall i :: 0 <= i < k ==> s[i] == MASK_CHAR
  {
    if k == 0 then [] else Stars(k - 1) + [MASK_CHAR]
  }

  /**
    `maskPAN`: every character from the seventh up to, not including, the fourth
    from the end becomes the mask character.
  */
  function MaskPan(pan: string): (r: string)
    ensures |r| == |pan|
    ensures forall i :: 0 <= i < |pan| ==> r[i] == if 6 <= i < |pan| - 4 then MASK_CHAR else pan[i]
    ensures |pan| <= 10 ==> r == pan
  {
    if |pan| <= 10 then pan
    else pan[..6] + Stars(|pan| - 10) + pan[|pan| - 4..]
  }

  /** `maskPAN` as written: a loop that overwrites the middle of a copy of the characters. */
  method MaskPanLoop(fullPan: string) returns (maskedPan: string)
    ensures maskedPan == MaskPan(fullPan)
  {
    maskedPan := fullPan;
    var i := 6;
    while i < |maskedPan| - 4
      invariant |maskedPan| == |fullPan|
      invariant 6 <= i <= if |fullPan| >= 10 then |fullPan| - 4 else 6
      invariant forall k :: 0 <= k < |fullPan| ==> maskedPan[k] == if 6 <= k < i then MASK_CHAR else fullPan[k]
    {
      maskedPan := maskedPan[i := MASK_CHAR];
      i := i + 1;
    }
    var spec := MaskPan(fullPan);
    assert forall k :: 0 <= k < |fullPan| ==> maskedPan[k] == spec[k];
  }

  /** Masking a masked PAN changes nothing more. */
  lemma MaskPanIdempotent(pan: string)
    ensures MaskPan(MaskPan(pan)) == MaskPan(pan)
  {
  }

  /** The number of characters of `s` that are not the mask character. */
  function Revealed(s: string): nat
    decreases |s|
  {
    if |s| == 0 then 0
    else Revealed(s[..|s| - 1]) + (if s[|s| - 1] == MASK_CHAR then 0 else 1)
  }

  lemma {:induction false} RevealedAppend(a: string, b: string)
    ensures Revealed(a + b) == Revealed(a) + Revealed(b)
    decreases |b|
  {
    if |b| == 0 {
      assert a + b == a;
    } else {
      var b' := b[..|b| - 1];
      assert (a + b)[..|a + b| - 1] == a + b';
      RevealedAppend(a, b');
    }
  }

  lemma {:induction false} RevealedBound(s: string)
    ensures Revealed(s) <= |s|
    decreases |s|
  {
    if |s| > 0 {
      RevealedBound(s[..|s| - 1]);
    }
  }

  lemma {:induction false} RevealedStars(k: nat)
    ensures Revealed(Stars(k)) == 0
  {
    if k > 0 {
      assert Stars(k)[..k - 1] == Stars(k - 1);
      RevealedStars(k - 1);
    }
  }

  /** A masked PAN shows at most ten of its characters. */
  lemma MaskPanRevealsAtMostTen(pan: string)
    ensures Revealed(MaskPan(pan)) <= 10
  {
    if |pan| <= 10 {
      RevealedBound(pan);
    } else {
      var head, tail := pan[..6], pan[|pan| - 4..];
      RevealedAppend(head + Stars(|pan| - 10), tail);
      RevealedAppend(head, Stars(|pan| - 10));
      RevealedStars(|pan| - 10);
      RevealedBound(head);
      RevealedBound(tail);
    }
  }

  /**
    `getFormattedValue`: the value's text when sensitive data may be printed;
    otherwise the masked PAN for field 2 (whether or not it is also listed), "***"
    for a listed field, and the text unchanged for any other field.
  */
  function GetFormattedValue(h: LoggingHandler, field: IsoValue, i: int): (r: string)
    ensures h.printSensitiveData ==> r == field.text
    ensures !h.printSensitiveData && i == 2 ==> |r| == |field.text|
    ensures !h.printSensitiveData && i != 2 && i in h.maskedFields ==> r == MASKED_VALUE
    ensures !h.printSensitiveData && i != 2 && i !in h.maskedFields ==> r == field.text
  {
    if h.printSensitiveData then field.text
    else if i == 2 then MaskPan(field.text)
    else if i in h.maskedFields then MASKED_VALUE
    else field.text
  }

  /**
    In secure mode a sensitive field — the PAN or a listed field — shows at most ten
    characters of its value, and a listed field other than the PAN shows none.
  */
  lemma SecureModeHidesSensitiveFields(h: LoggingHandler, field: IsoValue, i: int)
    requires !h.printSensitiveData && (i == 2 || i in h.maskedFields)
    ensures Revealed(GetFormattedValue(h, field, i)) <= 10
    ensures i != 2 ==> Revealed(GetFormattedValue(h, field, i)) == 0
  {
    if i == 2 {
      MaskPanRevealsAtMostTen(field.text);
    } else {
      assert MASKED_VALUE == Stars(3);
      RevealedStars(3);
    }
  }

  /**
    With the default list, tracks 1 to 3 and the extended PAN are hidden and field 112
    is not; with an empty list, which the connector's configuration passes by default,
    only the PAN is masked.
  */
  lemma DefaultMasking(printFieldDescriptions: bool, field: IsoValue, i: int)
    ensures var h := LoggingHandler(false, printFieldDescriptions, DEFAULT_MASKED_FIELDS);
      && GetFormattedValue(h, field, 34) == MASKED_VALUE
      && GetFormattedValue(h, field, 35) == MASKED_VALUE
      && GetFormattedValue(h, field, 36) == MASKED_VALUE
      && GetFormattedValue(h, field, 45) == MASKED_VALUE
      && GetFormattedValue(h, field, 112) == field.text
    ensures var h := LoggingHandler(false, printFieldDescriptions, DEFAULT_MASKED_FIELDS);
      forall k :: k in DEFAULT_MASKED_FIELDS ==> GetFormattedValue(h, field, k) == MASKED_VALUE
    ensures var h := LoggingHandler(false, printFieldDescriptions, []);
      i != 2 ==> GetFormattedValue(h, field, i) == field.text
  {
  }

  // ---------------------------------------------------------------------------
  // formatIsoMessage

  /** `String.format("%04x", type)`: the 32-bit type in lower-case hexadecimal, at least four digits. */
  function MtiHex(t: int): (s: string)
    ensures 4 <= |s|
  {
    ZeroPadded(t % 0x1_0000_0000, 16, 4)
  }

  /**
    `%04x` writes the type's 32-bit two's-complement value: lower-case hexadecimal
    digits that read back as the type modulo 2^32, for every type.
  */
  lemma MtiHexValue(t: int)
    ensures AllHexDigits(MtiHex(t))
    ensures DigitsValueIn(MtiHex(t), 16) == t % 0x1_0000_0000
  {
    ZeroPaddedValueIn(t % 0x1_0000_0000, 16, 4);
  }

  /** Any type from 0 to 0xffff is written with exactly four digits. */
  lemma MtiHexWidth(t: int)
    requires 0 <= t < 0x10000
    ensures |MtiHex(t)| == 4
  {
    assert t % 0x1_0000_0000 == t;
    assert MtiHex(t) == ZeroPadded(t, 16, 4);
    assert Pow(16, 4) == 0x10000;
    NumeralLength(t, 16, 4);
  }

  /** An authorization request and the 1993 error reply, as the log shows them. */
  lemma MtiHexExamples()
    ensures MtiHex(0x0200) == "0200"
    ensures MtiHex(0x1644) == "1644"
  {
    HexNumeral200();
    HexNumeral1644();
  }

  lemma HexNumeral200()
    ensures MtiHex(0x0200) == "0200"
  {
    HexDigits200();
    assert Zeros(1) == "0";
    assert 0x0200 % 0x1_0000_0000 == 0x0200;
    assert MtiHex(0x0200) == Zeros(1) + Numeral(0x200, 16);
  }

  lemma HexDigits200()
    ensures Numeral(0x200, 16) == "200"
  {
    assert DigitChar(0) == '0' && DigitChar(2) == '2';
    assert Numeral(0x2, 16) == "2";
    assert Numeral(0x20, 16) == Numeral(0x2, 16) + [DigitChar(0)] == "20";
    assert Numeral(0x200, 16) == Numeral(0x20, 16) + [DigitChar(0)];
  }

  lemma HexNumeral1644()
    ensures MtiHex(0x1644) == "1644"
  {
    HexDigits1644();
    assert 0x1644 % 0x1_0000_0000 == 0x1644;
    assert MtiHex(0x1644) == ZeroPadded(0x1644, 16, 4);
  }

  lemma HexDigits1644()
    ensures Numeral(0x1644, 16) == "1644"
  {
    assert DigitChar(1) == '1' && DigitChar(6) == '6' && DigitChar(4) == '4';
    assert Numeral(0x1, 16) == "1";
    assert Numeral(0x16, 16) == Numeral(0x1, 16) + [DigitChar(6)] == "16";
    assert Numeral(0x164, 16) == Numeral(0x16, 16) + [DigitChar(4)] == "164";
    assert Numeral(0x1644, 16) == Numeral(0x164, 16) + [DigitChar(4)];
  }

  /** The message's fields that are listed: those numbered 2 to `n - 1` that are present, in ascending order. */
  function FieldsBelow(m: IsoMessage, n: int): (r: seq<int>)
    ensures forall k :: 0 <= k < |r| ==> 2 <= r[k] < n && r[k] in m.fields
    ensures forall k :: 0 < k < |r| ==> r[k - 1] < r[k]
    ensures forall f :: 2 <= f < n && f in m.fields ==> f in r
    decreases n
  {
    if n <= 2 then []
    else FieldsBelow(m, n - 1) + (if n - 1 in m.fields then [n - 1] else [])
  }

  /** The fields `formatIsoMessage` prints: 2 to 127. Field 1, the bitmap, and fields beyond 127 never are. */
  function ListedFields(m: IsoMessage): (r: seq<int>)
    ensures forall k :: 0 <= k < |r| ==> 2 <= r[k] <= 127 && r[k] in m.fields
    ensures forall k :: 0 < k < |r| ==> r[k - 1] < r[k]
    ensures forall f :: 2 <= f <= 127 && f in m.fields ==> f in r
  {
    FieldsBelow(m, 128)
  }

  /** The enum name `append(field.type)` writes. */
  function TypeName(t: IsoType): string {
    match t
    case Numeric => "NUMERIC"
    case LlVar => "LLVAR"
    case OtherType(name) => name
  }

  /** A missing description is appended as "null". */
  function Describe(name: Option<string>): string {
    match name
    case None => "null"
    case Some(s) => s
  }

  /** The start of a field's line, up to its opening bracket. */
  function FieldPrefix(i: int): string {
    "\n  " + DecimalString(i) + ": ["
  }

  /** The rest of a field's line: its type, length and formatted value. */
  function FieldSuffix(h: LoggingHandler, i: int, v: IsoValue): string {
    TypeName(v.kind) + "(" + DecimalString(v.length) + ")] = '" + GetFormattedValue(h, v, i) + "'"
  }

  /** One field's line, with the field's description when descriptions are printed. */
  function FieldLine(h: LoggingHandler, names: int -> Option<string>, i: int, v: IsoValue): string {
    FieldPrefix(i) + (if h.printFieldDescriptions then Describe(names(i)) + ":" else "") + FieldSuffix(h, i, v)
  }

  /** The lines of the given present fields, in order. */
  function Lines(h: LoggingHandler, names: int -> Option<string>, m: IsoMessage, fields: seq<int>): string
    requires forall k :: 0 <= k < |fields| ==> fields[k] in m.fields
    decreases |fields|
  {
    if |fields| == 0 then ""
    else
      var last := fields[|fields| - 1];
      Lines(h, names, m, fields[..|fields| - 1]) + FieldLine(h, names, last, m.fields[last])
  }

  /** The head of the log text: the debug string when sensitive data may be printed, then the type. */
  function Header(h: LoggingHandler, j: J8583, m: IsoMessage): (r: string)
    ensures h.printSensitiveData <==> 9 <= |r| && r[..9] == "Message: "
    ensures var tail := "MTI: 0x" + MtiHex(m.msgType);
      |tail| <= |r| && r[|r| - |tail|..] == tail
  {
    var tail := "MTI: 0x" + MtiHex(m.msgType);
    if h.printSensitiveData then
      var r := "Message: " + j.debugString(m) + "\n" + tail;
      assert r[..9] == "Message: ";
      r
    else
      assert tail[1] == 'T';
      tail
  }

  /** `formatIsoMessage`: the header, then one line per present field from 2 to 127, in ascending order. */
  method FormatIsoMessage(h: LoggingHandler, j: J8583, names: int -> Option<string>, m: IsoMessage) returns (s: string)
    ensures s == Header(h, j, m) + Lines(h, names, m, ListedFields(m))
  {
    s := "";
    if h.printSensitiveData {
      s := s + "Message: " + j.debugString(m) + "\n";
    }
    s := s + "MTI: 0x" + MtiHex(m.msgType);
    assert s == Header(h, j, m);
    var lines := FormatFields(h, names, m);
    s := s + lines;
  }

  /** The loop of `formatIsoMessage` over fields 2 to 127. */
  method FormatFields(h: LoggingHandler, names: int -> Option<string>, m: IsoMessage) returns (s: string)
    ensures s == Lines(h, names, m, ListedFields(m))
  {
    s := "";
    ghost var listed: seq<int> := [];
    for i := 2 to 128
      invariant listed == FieldsBelow(m, i)
      invariant s == Lines(h, names, m, listed)
    {
      s, listed := FieldStep(h, names, m, i, s, listed);
    }
  }

  /** One turn of the loop: a present field's line is appended, an absent field is skipped. */
  method FieldStep(h: LoggingHandler, names: int -> Option<string>, m: IsoMessage, i: int, s: string, ghost listed: seq<int>)
    returns (s': string, ghost listed': seq<int>)
    requires 2 <= i && listed == FieldsBelow(m, i) && s == Lines(h, names, m, listed)
    ensures listed' == FieldsBelow(m, i + 1) && s' == Lines(h, names, m, listed')
  {
    s', listed' := s, listed;
    if i in m.fields {
      var line := AppendField(h, names, i, m.fields[i]);
      LinesSnoc(h, names, m, listed, i);
      listed' := listed + [i];
      s' := s + line;
    }
  }

  /** The body of the loop for a present field: the prefix, the description if asked for, the rest. */
  method AppendField(h: LoggingHandler, names: int -> Option<string>, i: int, field: IsoValue) returns (line: string)
    ensures line == FieldLine(h, names, i, field)
  {
    line := FieldPrefix(i);
    if h.printFieldDescriptions {
      line := line + Describe(names(i)) + ":";
    }
    line := line + FieldSuffix(h, i, field);
  }

  lemma LinesSnoc(h: LoggingHandler, names: int -> Option<string>, m: IsoMessage, fields: seq<int>, i: int)
    requires forall k :: 0 <= k < |fields| ==> fields[k] in m.fields
    requires i in m.fields
    ensures Lines(h, names, m, fields + [i]) == Lines(h, names, m, fields) + FieldLine(h, names, i, m.fields[i])
  {
    assert (fields + [i])[..|fields|] == fields;
  }

  /** The description appears, after the opening bracket, exactly when descriptions are printed. */
  lemma DescriptionOnlyWhenAsked(h: LoggingHandler, names: int -> Option<string>, i: int, v: IsoValue)
    ensures var with, without := FieldLine(h.(printFieldDescriptions := true), names, i, v),
                                 FieldLine(h.(printFieldDescriptions := false), names, i, v);
      var n := |FieldPrefix(i)|;
      n <= |without| && with == without[..n] + Describe(names(i)) + ":" + without[n..]
  {
    var hw, ho := h.(printFieldDescriptions := true), h.(printFieldDescriptions := false);
    var prefix, description := FieldPrefix(i), Describe(names(i)) + ":";
    var suffix := FieldSuffix(ho, i, v);
    assert FieldSuffix(hw, i, v) == suffix by {
      assert GetFormattedValue(hw, v, i) == GetFormattedValue(ho, v, i);
    }
    var without := FieldLine(ho, names, i, v);
    assert without == prefix + suffix;
    assert FieldLine(hw, names, i, v) == prefix + description + suffix;
    var n := |prefix|;
    assert without[..n] == prefix;
    assert without[n..] == suffix;
  }

  /** The debug string, which shows every field unmasked, heads the text only when sensitive data may be printed. */
  lemma DebugStringOnlyWhenSensitive(h: LoggingHandler, j: J8583, m: IsoMessage)
    ensures h.printSensitiveData ==>
      Header(h, j, m) == "Message: " + j.debugString(m) + "\n" + Header(h.(printSensitiveData := false), j, m)
    ensures !h.printSensitiveData ==> Header(h, j, m)[..7] == "MTI: 0x"
  {
  }
}
