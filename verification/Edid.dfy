/** The monitor serial in an EDID block: the scan over its four display descriptors. */
module Edid {
  import opened Options
  import opened WindowList

  type Byte = b: nat | b < 256

  /** ASCII text, other bytes dropped. */
  function Decode(bytes: seq<Byte>): string {
    if bytes == [] then ""
    else (if bytes[0] < 128 then [bytes[0] as char] else "") + Decode(bytes[1..])
  }

  /** The serial in the descriptor at `offset`, if the block is long enough, is a display
      descriptor, has the serial tag, and holds some text. */
  function SerialAt(edid: seq<Byte>, offset: nat): Option<string> {
    if |edid| <= offset + 18 then None
    else if edid[offset..offset + 3] == [0, 0, 0] && edid[offset + 3] == 0xFF then
      var serial := Strip(Decode(edid[offset + 5..offset + 18]), IsSpace);
      if serial != "" && serial != "\0" then Some(serial) else None
    else None
  }

  lemma {:induction false} DecodedIsAscii(bytes: seq<Byte>)
    ensures |Decode(bytes)| <= |bytes|
    ensures forall i :: 0 <= i < |Decode(bytes)| ==> Decode(bytes)[i] as int < 128
    ensures (forall i :: 0 <= i < |bytes| ==> bytes[i] < 128) ==>
      |Decode(bytes)| == |bytes| && forall i :: 0 <= i < |bytes| ==> Decode(bytes)[i] as int == bytes[i]
  {
    if bytes != [] {
      DecodedIsAscii(bytes[1..]);
    }
  }

  /** Tab, line feed, vertical tab, form feed, carriage return, the four separators or a blank. */
  predicate IsBlank(c: char) {
    9 <= c as int <= 13 || 28 <= c as int <= 32
  }

  lemma {:induction false} StrippedEnds(text: string)
    ensures var rest := Strip(text, IsSpace);
      && |rest| <= |text|
      && (rest != "" ==> !IsBlank(rest[0]) && !IsBlank(rest[|rest| - 1]))
      && forall c :: c in rest ==> c in text
  {
    LeftStripped(text);
    RightStripped(StripLeft(text, IsSpace));
  }

  lemma {:induction false} LeftStripped(text: string)
    ensures var rest := StripLeft(text, IsSpace);
      && |rest| <= |text| && (rest != "" ==> !IsBlank(rest[0])) && forall c :: c in rest ==> c in text
  {
    if text != "" && IsSpace(text[0]) {
      LeftStripped(text[1..]);
    }
  }

  lemma {:induction false} RightStripped(text: string)
    ensures var rest := StripRight(text, IsSpace);
      && |rest| <= |text| && rest == text[..|rest|]
      && (rest != "" ==> !IsBlank(rest[|rest| - 1]))
  {
    if text != "" && IsSpace(text[|text| - 1]) {
      RightStripped(text[..|text| - 1]);
    }
  }

  /** Whatever a block holds, a serial found in it comes from a complete serial descriptor, is
      ASCII text of at most 13 characters without outer blanks, and is not a lone NUL. */
  lemma SerialIsProper(edid: seq<Byte>, offset: nat)
    requires SerialAt(edid, offset).Some?
    ensures var serial := SerialAt(edid, offset).value;
      && offset + 18 < |edid|
      && edid[offset] == 0 && edid[offset + 1] == 0 && edid[offset + 2] == 0 && edid[offset + 3] == 255
      && 1 <= |serial| <= 13 && serial != [0 as char]
      && (forall i :: 0 <= i < |serial| ==> serial[i] as int < 128)
      && !IsBlank(serial[0]) && !IsBlank(serial[|serial| - 1])
  {
    var text := edid[offset + 5..offset + 18];
    DecodedIsAscii(text);
    StrippedEnds(Decode(text));
    var serial := SerialAt(edid, offset).value;
    assert forall c :: c in serial ==> c in Decode(text);
    assert forall i :: 0 <= i < |serial| ==> serial[i] in serial;
    assert edid[offset..offset + 3][0] == 0 && edid[offset..offset + 3][1] == 0 && edid[offset..offset + 3][2] == 0;
  }

  /** Conversely, a complete serial descriptor without a serial holds nothing but blanks and
      bytes that are not ASCII, or a lone NUL among these. */
  lemma NoSerialIff(edid: seq<Byte>, offset: nat)
    requires offset + 18 < |edid|
    requires edid[offset] == 0 && edid[offset + 1] == 0 && edid[offset + 2] == 0 && edid[offset + 3] == 255
    ensures var text := Strip(Decode(edid[offset + 5..offset + 18]), IsSpace);
      SerialAt(edid, offset).None? <==> text == "" || text == [0 as char]
  {
    assert edid[offset..offset + 3] == [0, 0, 0];
  }

  const OFFSETS: seq<nat> := [54, 72, 90, 108]

  /** The descriptors of 18 bytes fill the base block from byte 54 up to its last two bytes. */
  lemma DescriptorsFillTheBlock()
    ensures forall k :: 0 <= k < |OFFSETS| ==> OFFSETS[k] == 54 + 18 * k
    ensures 54 + 18 * |OFFSETS| == 126
  {
  }

  ghost predicate IsFirstSerial(edid: seq<Byte>, serial: string, at: int) {
    && 0 <= at < |OFFSETS|
    && SerialAt(edid, OFFSETS[at]) == Some(serial)
    && forall k :: 0 <= k < at ==> SerialAt(edid, OFFSETS[k]).None?
  }

  method ScanSerial(edid: seq<Byte>) returns (r: Option<string>)
    ensures r.Some? ==> exists at :: IsFirstSerial(edid, r.value, at)
    ensures r.None? <==> forall k :: 0 <= k < |OFFSETS| ==> SerialAt(edid, OFFSETS[k]).None?
  {
    for i := 0 to |OFFSETS|
      invariant forall k :: 0 <= k < i ==> SerialAt(edid, OFFSETS[k]).None?
    {
      var offset := OFFSETS[i];
      if |edid| <= offset + 18 {
        continue;
      }
      if edid[offset..offset + 3] == [0, 0, 0] {
        var tag := edid[offset + 3];
        if tag == 0xFF {
          var serial := Strip(Decode(edid[offset + 5..offset + 18]), IsSpace);
          if serial != "" && serial != "\0" {
            assert IsFirstSerial(edid, serial, i);
            return Some(serial);
          }
        }
      }
    }
    return None;
  }

  // --------------------------------------------------------------- round trip

  /** 1 to 13 printable characters without outer blanks. */
  predicate IsSerial(serial: string) {
    && 1 <= |serial| <= 13
    && (forall i :: 0 <= i < |serial| ==> ' ' <= serial[i] <= '~')
    && serial[0] != ' ' && serial[|serial| - 1] != ' '
  }

  function Codes(text: string): seq<Byte>
    requires forall i :: 0 <= i < |text| ==> ' ' <= text[i] <= '~'
  {
    seq(|text|, i requires 0 <= i < |text| => text[i] as nat)
  }

  function Blanks(n: nat): seq<Byte> {
    seq(n, _ => 0x20)
  }

  /** Thirteen bytes: the text, then a line feed and blanks if it is shorter (section
      3.10.3 of VESA E-EDID Release A, Revision 2). */
  function Encode(serial: string): seq<Byte>
    requires IsSerial(serial)
  {
    if |serial| == 13 then Codes(serial) else Codes(serial) + [0x0A] + Blanks(12 - |serial|)
  }

  /** A serial number descriptor stands at `offset`; byte 4 is unused. */
  predicate HoldsSerial(edid: seq<Byte>, offset: nat, serial: string)
    requires IsSerial(serial)
  {
    && offset + 18 < |edid|
    && edid[offset..offset + 3] == [0, 0, 0] && edid[offset + 3] == 0xFF
    && edid[offset + 5..offset + 18] == Encode(serial)
  }

  lemma {:induction false} DecodeConcat(a: seq<Byte>, b: seq<Byte>)
    ensures Decode(a + b) == Decode(a) + Decode(b)
    decreases |a|
  {
    if a == [] {
      assert a + b == b;
    } else {
      assert (a + b)[1..] == a[1..] + b;
      DecodeConcat(a[1..], b);
    }
  }

  lemma {:induction false} DecodeCodes(text: string)
    requires forall i :: 0 <= i < |text| ==> ' ' <= text[i] <= '~'
    ensures Decode(Codes(text)) == text
  {
    if text != "" {
      DecodeCodes(text[1..]);
      assert Codes(text)[1..] == Codes(text[1..]);
    }
  }

  predicate AllSpace(text: string) {
    forall i :: 0 <= i < |text| ==> IsSpace(text[i])
  }

  lemma {:induction false} PaddingIsSpace(bytes: seq<Byte>)
    requires forall i :: 0 <= i < |bytes| ==> bytes[i] == 0x0A || bytes[i] == 0x20
    ensures AllSpace(Decode(bytes))
  {
    if bytes != [] {
      PaddingIsSpace(bytes[1..]);
      assert IsSpace(bytes[0] as char);
    }
  }

  lemma {:induction false} SpacesStripOff(text: string, pad: string)
    requires text == "" || !IsSpace(text[|text| - 1])
    requires AllSpace(pad)
    ensures StripRight(text + pad, IsSpace) == text
    decreases |pad|
  {
    if pad == "" {
      assert text + pad == text;
    } else {
      var shorter := pad[..|pad| - 1];
      assert (text + pad)[..|text + pad| - 1] == text + shorter;
      SpacesStripOff(text, shorter);
    }
  }

  lemma HeldSerialIsRead(edid: seq<Byte>, offset: nat, serial: string)
    requires IsSerial(serial) && HoldsSerial(edid, offset, serial)
    ensures SerialAt(edid, offset) == Some(serial)
  {
    DecodeCodes(serial);
    assert !IsSpace(serial[0]) && !IsSpace(serial[|serial| - 1]);
    if |serial| == 13 {
    } else {
      var pad := [0x0A] + Blanks(12 - |serial|);
      assert Encode(serial) == Codes(serial) + pad;
      DecodeConcat(Codes(serial), pad);
      PaddingIsSpace(pad);
      SpacesStripOff(serial, Decode(pad));
    }
  }

  /** Scanning a 128-byte block recovers the serial encoded in its first serial descriptor. */
  lemma SerialRoundTrip(edid: seq<Byte>, serial: string, at: nat)
    requires |edid| == 128 && at < |OFFSETS| && IsSerial(serial)
    requires HoldsSerial(edid, OFFSETS[at], serial)
    requires forall k :: 0 <= k < at ==> !(edid[OFFSETS[k]..OFFSETS[k] + 3] == [0, 0, 0] && edid[OFFSETS[k] + 3] == 0xFF)
    ensures IsFirstSerial(edid, serial, at)
    ensures forall s, other :: IsFirstSerial(edid, s, other) ==> s == serial
  {
    HeldSerialIsRead(edid, OFFSETS[at], serial);
  }
}
