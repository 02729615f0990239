/** The checksum is CRC-32C (util/crc32c.cc). */
module Checksums {
  import opened Coding

  lemma NextByte(l: bv32, b: byte, rest: Bytes, next: bv32)
    requires CrcByte(l, b) == next
    ensures CrcBytes(l, [b] + rest) == CrcBytes(next, rest)
  {
    hide CrcByte;
    assert ([b] + rest)[1..] == rest;
  }

  /** The check value of CRC-32C: the checksum of the digits 1 to 9. */
  lemma CheckValue()
    ensures Extend(0, [0x31, 0x32, 0x33, 0x34, 0x35, 0x36, 0x37, 0x38, 0x39]) == 0xE306_9283
  {
    FirstDigits();
    MiddleDigits();
    LastDigits();
    hide CrcBytes; hide CrcByte;
    assert [0x31, 0x32, 0x33, 0x34, 0x35, 0x36, 0x37, 0x38, 0x39] == [0x31] + ([0x32] + ([0x33] + ([0x34] + ([0x35] + ([0x36] + ([0x37] + ([0x38] + ([0x39] + []))))))));
    NextByte(0xFFFF_FFFF, 0x31, [0x32] + ([0x33] + ([0x34] + ([0x35] + ([0x36] + ([0x37] + ([0x38] + ([0x39] + []))))))), 0x6F0A_661C);
    NextByte(0x6F0A_661C, 0x32, [0x33] + ([0x34] + ([0x35] + ([0x36] + ([0x37] + ([0x38] + ([0x39] + [])))))), 0x8CAA_3B9F);
    NextByte(0x8CAA_3B9F, 0x33, [0x34] + ([0x35] + ([0x36] + ([0x37] + ([0x38] + ([0x39] + []))))), 0xEF84_D04D);
    NextByte(0xEF84_D04D, 0x34, [0x35] + ([0x36] + ([0x37] + ([0x38] + ([0x39] + [])))), 0x09C5_0B11);
    NextByte(0x09C5_0B11, 0x35, [0x36] + ([0x37] + ([0x38] + ([0x39] + []))), 0xE72E_DCCA);
    NextByte(0xE72E_DCCA, 0x36, [0x37] + ([0x38] + ([0x39] + [])), 0xBECA_8E79);
    NextByte(0xBECA_8E79, 0x37, [0x38] + ([0x39] + []), 0xEDBD_6815);
    NextByte(0xEDBD_6815, 0x38, [0x39] + [], 0x9F78_7F65);
    NextByte(0x9F78_7F65, 0x39, [], 0x1CF9_6D7C);
    NoBytes(0x1CF9_6D7C);
  }

  lemma NoBytes(l: bv32)
    ensures CrcBytes(l, []) == l
  {
  }

  lemma FirstDigits()
    ensures CrcByte(0xFFFF_FFFF, 0x31) == 0x6F0A_661C && CrcByte(0x6F0A_661C, 0x32) == 0x8CAA_3B9F && CrcByte(0x8CAA_3B9F, 0x33) == 0xEF84_D04D
  {
  }

  lemma MiddleDigits()
    ensures CrcByte(0xEF84_D04D, 0x34) == 0x09C5_0B11 && CrcByte(0x09C5_0B11, 0x35) == 0xE72E_DCCA && CrcByte(0xE72E_DCCA, 0x36) == 0xBECA_8E79
  {
  }

  lemma LastDigits()
    ensures CrcByte(0xBECA_8E79, 0x37) == 0xEDBD_6815 && CrcByte(0xEDBD_6815, 0x38) == 0x9F78_7F65 && CrcByte(0x9F78_7F65, 0x39) == 0x1CF9_6D7C
  {
  }

  /** Masking rotates by 15 bits and adds a constant. */
  lemma MaskRotates(high: nat, low: nat)
    requires high < 0x2_0000 && low < 0x8000
    ensures Mask(high * 0x8000 + low) == (low * 0x2_0000 + high + 0xa282_ead8) % 0x1_0000_0000
  {
    assert (high * 0x8000 + low) / 0x8000 == high && (high * 0x8000 + low) % 0x8000 == low;
  }
}
