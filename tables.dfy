/**
 * The constant tables of AES-128 (FIPS 197): the S-box of Fig. 7, the inverse
 * S-box of Fig. 14, the round constants of section 5.2 and the MixColumns
 * matrices of equations 5.6 and 5.10. The class holding these tables beside
 * `AES.java` (`AESConst`) is not part of this model; the entries are the
 * published ones.
 */
module AesTables {
  import opened GaloisField
  import opened ColumnAlgebra

  /** The S-box entry in row `row` and column `col` (both 0..15); 16 x 16 in all. */
  function Sbox(row: bv8, col: bv8): bv8 {
    match row
    case 0 =>
      match col {
        case 0 => 0x63 case 1 => 0x7c case 2 => 0x77 case 3 => 0x7b
        case 4 => 0xf2 case 5 => 0x6b case 6 => 0x6f case 7 => 0xc5
        case 8 => 0x30 case 9 => 0x01 case 10 => 0x67 case 11 => 0x2b
        case 12 => 0xfe case 13 => 0xd7 case 14 => 0xab case _ => 0x76
      }
    case 1 =>
      match col {
        case 0 => 0xca case 1 => 0x82 case 2 => 0xc9 case 3 => 0x7d
        case 4 => 0xfa case 5 => 0x59 case 6 => 0x47 case 7 => 0xf0
        case 8 => 0xad case 9 => 0xd4 case 10 => 0xa2 case 11 => 0xaf
        case 12 => 0x9c case 13 => 0xa4 case 14 => 0x72 case _ => 0xc0
      }
    case 2 =>
      match col {
        case 0 => 0xb7 case 1 => 0xfd case 2 => 0x93 case 3 => 0x26
        case 4 => 0x36 case 5 => 0x3f case 6 => 0xf7 case 7 => 0xcc
        case 8 => 0x34 case 9 => 0xa5 case 10 => 0xe5 case 11 => 0xf1
        case 12 => 0x71 case 13 => 0xd8 case 14 => 0x31 case _ => 0x15
      }
    case 3 =>
      match col {
        case 0 => 0x04 case 1 => 0xc7 case 2 => 0x23 case 3 => 0xc3
        case 4 => 0x18 case 5 => 0x96 case 6 => 0x05 case 7 => 0x9a
        case 8 => 0x07 case 9 => 0x12 case 10 => 0x80 case 11 => 0xe2
        case 12 => 0xeb case 13 => 0x27 case 14 => 0xb2 case _ => 0x75
      }
    case 4 =>
      match col {
        case 0 => 0x09 case 1 => 0x83 case 2 => 0x2c case 3 => 0x1a
        case 4 => 0x1b case 5 => 0x6e case 6 => 0x5a case 7 => 0xa0
        case 8 => 0x52 case 9 => 0x3b case 10 => 0xd6 case 11 => 0xb3
        case 12 => 0x29 case 13 => 0xe3 case 14 => 0x2f case _ => 0x84
      }
    case 5 =>
      match col {
        case 0 => 0x53 case 1 => 0xd1 case 2 => 0x00 case 3 => 0xed
        case 4 => 0x20 case 5 => 0xfc case 6 => 0xb1 case 7 => 0x5b
        case 8 => 0x6a case 9 => 0xcb case 10 => 0xbe case 11 => 0x39
        case 12 => 0x4a case 13 => 0x4c case 14 => 0x58 case _ => 0xcf
      }
    case 6 =>
      match col {
        case 0 => 0xd0 case 1 => 0xef case 2 => 0xaa case 3 => 0xfb
        case 4 => 0x43 case 5 => 0x4d case 6 => 0x33 case 7 => 0x85
        case 8 => 0x45 case 9 => 0xf9 case 10 => 0x02 case 11 => 0x7f
        case 12 => 0x50 case 13 => 0x3c case 14 => 0x9f case _ => 0xa8
      }
    case 7 =>
      match col {
        case 0 => 0x51 case 1 => 0xa3 case 2 => 0x40 case 3 => 0x8f
        case 4 => 0x92 case 5 => 0x9d case 6 => 0x38 case 7 => 0xf5
        case 8 => 0xbc case 9 => 0xb6 case 10 => 0xda case 11 => 0x21
        case 12 => 0x10 case 13 => 0xff case 14 => 0xf3 case _ => 0xd2
      }
    case 8 =>
      match col {
        case 0 => 0xcd case 1 => 0x0c case 2 => 0x13 case 3 => 0xec
        case 4 => 0x5f case 5 => 0x97 case 6 => 0x44 case 7 => 0x17
        case 8 => 0xc4 case 9 => 0xa7 case 10 => 0x7e case 11 => 0x3d
        case 12 => 0x64 case 13 => 0x5d case 14 => 0x19 case _ => 0x73
      }
    case 9 =>
      match col {
        case 0 => 0x60 case 1 => 0x81 case 2 => 0x4f case 3 => 0xdc
        case 4 => 0x22 case 5 => 0x2a case 6 => 0x90 case 7 => 0x88
        case 8 => 0x46 case 9 => 0xee case 10 => 0xb8 case 11 => 0x14
        case 12 => 0xde case 13 => 0x5e case 14 => 0x0b case _ => 0xdb
      }
    case 10 =>
      match col {
        case 0 => 0xe0 case 1 => 0x32 case 2 => 0x3a case 3 => 0x0a
        case 4 => 0x49 case 5 => 0x06 case 6 => 0x24 case 7 => 0x5c
        case 8 => 0xc2 case 9 => 0xd3 case 10 => 0xac case 11 => 0x62
        case 12 => 0x91 case 13 => 0x95 case 14 => 0xe4 case _ => 0x79
      }
    case 11 =>
      match col {
        case 0 => 0xe7 case 1 => 0xc8 case 2 => 0x37 case 3 => 0x6d
        case 4 => 0x8d case 5 => 0xd5 case 6 => 0x4e case 7 => 0xa9
        case 8 => 0x6c case 9 => 0x56 case 10 => 0xf4 case 11 => 0xea
        case 12 => 0x65 case 13 => 0x7a case 14 => 0xae case _ => 0x08
      }
    case 12 =>
      match col {
        case 0 => 0xba case 1 => 0x78 case 2 => 0x25 case 3 => 0x2e
        case 4 => 0x1c case 5 => 0xa6 case 6 => 0xb4 case 7 => 0xc6
        case 8 => 0xe8 case 9 => 0xdd case 10 => 0x74 case 11 => 0x1f
        case 12 => 0x4b case 13 => 0xbd case 14 => 0x8b case _ => 0x8a
      }
    case 13 =>
      match col {
        case 0 => 0x70 case 1 => 0x3e case 2 => 0xb5 case 3 => 0x66
        case 4 => 0x48 case 5 => 0x03 case 6 => 0xf6 case 7 => 0x0e
        case 8 => 0x61 case 9 => 0x35 case 10 => 0x57 case 11 => 0xb9
        case 12 => 0x86 case 13 => 0xc1 case 14 => 0x1d case _ => 0x9e
      }
    case 14 =>
      match col {
        case 0 => 0xe1 case 1 => 0xf8 case 2 => 0x98 case 3 => 0x11
        case 4 => 0x69 case 5 => 0xd9 case 6 => 0x8e case 7 => 0x94
        case 8 => 0x9b case 9 => 0x1e case 10 => 0x87 case 11 => 0xe9
        case 12 => 0xce case 13 => 0x55 case 14 => 0x28 case _ => 0xdf
      }
    case _ =>
      match col {
        case 0 => 0x8c case 1 => 0xa1 case 2 => 0x89 case 3 => 0x0d
        case 4 => 0xbf case 5 => 0xe6 case 6 => 0x42 case 7 => 0x68
        case 8 => 0x41 case 9 => 0x99 case 10 => 0x2d case 11 => 0x0f
        case 12 => 0xb0 case 13 => 0x54 case 14 => 0xbb case _ => 0x16
      }
  }

  /** The inverse S-box entry in row `row` and column `col`. */
  function InvSbox(row: bv8, col: bv8): bv8 {
    match row
    case 0 =>
      match col {
        case 0 => 0x52 case 1 => 0x09 case 2 => 0x6a case 3 => 0xd5
        case 4 => 0x30 case 5 => 0x36 case 6 => 0xa5 case 7 => 0x38
        case 8 => 0xbf case 9 => 0x40 case 10 => 0xa3 case 11 => 0x9e
        case 12 => 0x81 case 13 => 0xf3 case 14 => 0xd7 case _ => 0xfb
      }
    case 1 =>
      match col {
        case 0 => 0x7c case 1 => 0xe3 case 2 => 0x39 case 3 => 0x82
        case 4 => 0x9b case 5 => 0x2f case 6 => 0xff case 7 => 0x87
        case 8 => 0x34 case 9 => 0x8e case 10 => 0x43 case 11 => 0x44
        case 12 => 0xc4 case 13 => 0xde case 14 => 0xe9 case _ => 0xcb
      }
    case 2 =>
      match col {
        case 0 => 0x54 case 1 => 0x7b case 2 => 0x94 case 3 => 0x32
        case 4 => 0xa6 case 5 => 0xc2 case 6 => 0x23 case 7 => 0x3d
        case 8 => 0xee case 9 => 0x4c case 10 => 0x95 case 11 => 0x0b
        case 12 => 0x42 case 13 => 0xfa case 14 => 0xc3 case _ => 0x4e
      }
    case 3 =>
      match col {
        case 0 => 0x08 case 1 => 0x2e case 2 => 0xa1 case 3 => 0x66
        case 4 => 0x28 case 5 => 0xd9 case 6 => 0x24 case 7 => 0xb2
        case 8 => 0x76 case 9 => 0x5b case 10 => 0xa2 case 11 => 0x49
        case 12 => 0x6d case 13 => 0x8b case 14 => 0xd1 case _ => 0x25
      }
    case 4 =>
      match col {
        case 0 => 0x72 case 1 => 0xf8 case 2 => 0xf6 case 3 => 0x64
        case 4 => 0x86 case 5 => 0x68 case 6 => 0x98 case 7 => 0x16
        case 8 => 0xd4 case 9 => 0xa4 case 10 => 0x5c case 11 => 0xcc
        case 12 => 0x5d case 13 => 0x65 case 14 => 0xb6 case _ => 0x92
      }
    case 5 =>
      match col {
        case 0 => 0x6c case 1 => 0x70 case 2 => 0x48 case 3 => 0x50
        case 4 => 0xfd case 5 => 0xed case 6 => 0xb9 case 7 => 0xda
        case 8 => 0x5e case 9 => 0x15 case 10 => 0x46 case 11 => 0x57
        case 12 => 0xa7 case 13 => 0x8d case 14 => 0x9d case _ => 0x84
      }
    case 6 =>
      match col {
        case 0 => 0x90 case 1 => 0xd8 case 2 => 0xab case 3 => 0x00
        case 4 => 0x8c case 5 => 0xbc case 6 => 0xd3 case 7 => 0x0a
        case 8 => 0xf7 case 9 => 0xe4 case 10 => 0x58 case 11 => 0x05
        case 12 => 0xb8 case 13 => 0xb3 case 14 => 0x45 case _ => 0x06
      }
    case 7 =>
      match col {
        case 0 => 0xd0 case 1 => 0x2c case 2 => 0x1e case 3 => 0x8f
        case 4 => 0xca case 5 => 0x3f case 6 => 0x0f case 7 => 0x02
        case 8 => 0xc1 case 9 => 0xaf case 10 => 0xbd case 11 => 0x03
        case 12 => 0x01 case 13 => 0x13 case 14 => 0x8a case _ => 0x6b
      }
    case 8 =>
      match col {
        case 0 => 0x3a case 1 => 0x91 case 2 => 0x11 case 3 => 0x41
        case 4 => 0x4f case 5 => 0x67 case 6 => 0xdc case 7 => 0xea
        case 8 => 0x97 case 9 => 0xf2 case 10 => 0xcf case 11 => 0xce
        case 12 => 0xf0 case 13 => 0xb4 case 14 => 0xe6 case _ => 0x73
      }
    case 9 =>
      match col {
        case 0 => 0x96 case 1 => 0xac case 2 => 0x74 case 3 => 0x22
        case 4 => 0xe7 case 5 => 0xad case 6 => 0x35 case 7 => 0x85
        case 8 => 0xe2 case 9 => 0xf9 case 10 => 0x37 case 11 => 0xe8
        case 12 => 0x1c case 13 => 0x75 case 14 => 0xdf case _ => 0x6e
      }
    case 10 =>
      match col {
        case 0 => 0x47 case 1 => 0xf1 case 2 => 0x1a case 3 => 0x71
        case 4 => 0x1d case 5 => 0x29 case 6 => 0xc5 case 7 => 0x89
        case 8 => 0x6f case 9 => 0xb7 case 10 => 0x62 case 11 => 0x0e
        case 12 => 0xaa case 13 => 0x18 case 14 => 0xbe case _ => 0x1b
      }
    case 11 =>
      match col {
        case 0 => 0xfc case 1 => 0x56 case 2 => 0x3e case 3 => 0x4b
        case 4 => 0xc6 case 5 => 0xd2 case 6 => 0x79 case 7 => 0x20
        case 8 => 0x9a case 9 => 0xdb case 10 => 0xc0 case 11 => 0xfe
        case 12 => 0x78 case 13 => 0xcd case 14 => 0x5a case _ => 0xf4
      }
    case 12 =>
      match col {
        case 0 => 0x1f case 1 => 0xdd case 2 => 0xa8 case 3 => 0x33
        case 4 => 0x88 case 5 => 0x07 case 6 => 0xc7 case 7 => 0x31
        case 8 => 0xb1 case 9 => 0x12 case 10 => 0x10 case 11 => 0x59
        case 12 => 0x27 case 13 => 0x80 case 14 => 0xec case _ => 0x5f
      }
    case 13 =>
      match col {
        case 0 => 0x60 case 1 => 0x51 case 2 => 0x7f case 3 => 0xa9
        case 4 => 0x19 case 5 => 0xb5 case 6 => 0x4a case 7 => 0x0d
        case 8 => 0x2d case 9 => 0xe5 case 10 => 0x7a case 11 => 0x9f
        case 12 => 0x93 case 13 => 0xc9 case 14 => 0x9c case _ => 0xef
      }
    case 14 =>
      match col {
        case 0 => 0xa0 case 1 => 0xe0 case 2 => 0x3b case 3 => 0x4d
        case 4 => 0xae case 5 => 0x2a case 6 => 0xf5 case 7 => 0xb0
        case 8 => 0xc8 case 9 => 0xeb case 10 => 0xbb case 11 => 0x3c
        case 12 => 0x83 case 13 => 0x53 case 14 => 0x99 case _ => 0x61
      }
    case _ =>
      match col {
        case 0 => 0x17 case 1 => 0x2b case 2 => 0x04 case 3 => 0x7e
        case 4 => 0xba case 5 => 0x77 case 6 => 0xd6 case 7 => 0x26
        case 8 => 0xe1 case 9 => 0x69 case 10 => 0x14 case 11 => 0x63
        case 12 => 0x55 case 13 => 0x21 case 14 => 0x0c case _ => 0x7d
      }
  }

  /**
   * SubBytes on one byte (src/crypto/aes/AES.java:316-327): the high nibble
   * selects the row and the low nibble the column.
   */
  function SubByte(x: bv8): bv8 {
    Sbox((x & 0xF0) >> 4, x & 0x0F)
  }

  function InvSubByte(x: bv8): bv8 {
    InvSbox((x & 0xF0) >> 4, x & 0x0F)
  }

  /** The inverse S-box undoes the S-box on every byte ... */
  lemma InvSubByteSubByte(x: bv8)
    ensures InvSubByte(SubByte(x)) == x
  {
  }

  /** ... and the S-box undoes the inverse S-box, so both are permutations. */
  lemma SubByteInvSubByte(x: bv8)
    ensures SubByte(InvSubByte(x)) == x
  {
  }

  /**
   * The round constant rcon[i] of the key schedule, x^(i-1) in GF(2^8), for
   * the indices 1..10 that AES-128 reads.
   */
  function Rcon(i: int): bv8
    requires 1 <= i <= 10
  {
    match i
    case 1 => 0x01 case 2 => 0x02 case 3 => 0x04 case 4 => 0x08 case 5 => 0x10
    case 6 => 0x20 case 7 => 0x40 case 8 => 0x80 case 9 => 0x1B case _ => 0x36
  }

  /** The round constants are the successive powers of x = 0x02 in GF(2^8), starting at 1. */
  lemma RconPowers(i: int)
    requires 1 <= i < 10
    ensures Rcon(1) == 1
    ensures Rcon(i + 1) == FieldMul(2, Rcon(i))
  {
    MulBy2(Rcon(i));
  }

  /** The MixColumns matrix (equation 5.6), row by row. */
  const COL_MAT: Matrix :=
    Matrix(Word(2, 3, 1, 1), Word(1, 2, 3, 1), Word(1, 1, 2, 3), Word(3, 1, 1, 2))

  /** The InvMixColumns matrix (equation 5.10), row by row. */
  const IN_COL_MAT: Matrix :=
    Matrix(Word(0x0E, 0x0B, 0x0D, 0x09), Word(0x09, 0x0E, 0x0B, 0x0D),
           Word(0x0D, 0x09, 0x0E, 0x0B), Word(0x0B, 0x0D, 0x09, 0x0E))

  /** The InvMixColumns matrix times the MixColumns matrix is the identity ... */
  lemma InColMatColMat()
    ensures Product(IN_COL_MAT, COL_MAT) == Identity
  {
    hide FieldMul;
    InverseTimesForward();
  }

  /** ... and so is the product in the other order. */
  lemma ColMatInColMat()
    ensures Product(COL_MAT, IN_COL_MAT) == Identity
  {
    hide FieldMul, RowTimes;
    ForwardRows();
  }

  /** Each row of the MixColumns matrix times the InvMixColumns matrix. */
  lemma ForwardRows()
    ensures RowTimes(Word(2, 3, 1, 1), IN_COL_MAT) == Word(1, 0, 0, 0)
    ensures RowTimes(Word(1, 2, 3, 1), IN_COL_MAT) == Word(0, 1, 0, 0)
    ensures RowTimes(Word(1, 1, 2, 3), IN_COL_MAT) == Word(0, 0, 1, 0)
    ensures RowTimes(Word(3, 1, 1, 2), IN_COL_MAT) == Word(0, 0, 0, 1)
  {
    hide FieldMul, Dot;
    ForwardDots();
  }

  /** Each row of the MixColumns matrix times each column of the InvMixColumns matrix. */
  lemma ForwardDots()
    ensures Dot(Word(2, 3, 1, 1), Word(0x0E, 0x09, 0x0D, 0x0B)) == 1 && Dot(Word(2, 3, 1, 1), Word(0x0B, 0x0E, 0x09, 0x0D)) == 0
    ensures Dot(Word(2, 3, 1, 1), Word(0x0D, 0x0B, 0x0E, 0x09)) == 0 && Dot(Word(2, 3, 1, 1), Word(0x09, 0x0D, 0x0B, 0x0E)) == 0
    ensures Dot(Word(1, 2, 3, 1), Word(0x0E, 0x09, 0x0D, 0x0B)) == 0 && Dot(Word(1, 2, 3, 1), Word(0x0B, 0x0E, 0x09, 0x0D)) == 1
    ensures Dot(Word(1, 2, 3, 1), Word(0x0D, 0x0B, 0x0E, 0x09)) == 0 && Dot(Word(1, 2, 3, 1), Word(0x09, 0x0D, 0x0B, 0x0E)) == 0
    ensures Dot(Word(1, 1, 2, 3), Word(0x0E, 0x09, 0x0D, 0x0B)) == 0 && Dot(Word(1, 1, 2, 3), Word(0x0B, 0x0E, 0x09, 0x0D)) == 0
    ensures Dot(Word(1, 1, 2, 3), Word(0x0D, 0x0B, 0x0E, 0x09)) == 1 && Dot(Word(1, 1, 2, 3), Word(0x09, 0x0D, 0x0B, 0x0E)) == 0
    ensures Dot(Word(3, 1, 1, 2), Word(0x0E, 0x09, 0x0D, 0x0B)) == 0 && Dot(Word(3, 1, 1, 2), Word(0x0B, 0x0E, 0x09, 0x0D)) == 0
    ensures Dot(Word(3, 1, 1, 2), Word(0x0D, 0x0B, 0x0E, 0x09)) == 0 && Dot(Word(3, 1, 1, 2), Word(0x09, 0x0D, 0x0B, 0x0E)) == 1
  {
    hide FieldMul;
    ForwardTimesInverse();
  }

  /** The products of an InvMixColumns coefficient with a MixColumns coefficient. */
  lemma InverseTimesForward()
    ensures FieldMul(0x09, 1) == 0x09 && FieldMul(0x09, 2) == 0x12 && FieldMul(0x09, 3) == 0x1B
    ensures FieldMul(0x0B, 1) == 0x0B && FieldMul(0x0B, 2) == 0x16 && FieldMul(0x0B, 3) == 0x1D
    ensures FieldMul(0x0D, 1) == 0x0D && FieldMul(0x0D, 2) == 0x1A && FieldMul(0x0D, 3) == 0x17
    ensures FieldMul(0x0E, 1) == 0x0E && FieldMul(0x0E, 2) == 0x1C && FieldMul(0x0E, 3) == 0x12
  {
    hide FieldMul;
    MulBy9(1); MulBy9(2); MulBy9(3);
    MulBy11(1); MulBy11(2); MulBy11(3);
    MulBy13(1); MulBy13(2); MulBy13(3);
    MulBy14(1); MulBy14(2); MulBy14(3);
  }

  /** The products of a MixColumns coefficient with an InvMixColumns coefficient. */
  lemma ForwardTimesInverse()
    ensures FieldMul(1, 0x09) == 0x09 && FieldMul(1, 0x0B) == 0x0B && FieldMul(1, 0x0D) == 0x0D && FieldMul(1, 0x0E) == 0x0E
    ensures FieldMul(2, 0x09) == 0x12 && FieldMul(2, 0x0B) == 0x16 && FieldMul(2, 0x0D) == 0x1A && FieldMul(2, 0x0E) == 0x1C
    ensures FieldMul(3, 0x09) == 0x1B && FieldMul(3, 0x0B) == 0x1D && FieldMul(3, 0x0D) == 0x17 && FieldMul(3, 0x0E) == 0x12
  {
    hide FieldMul;
    MulOneLeft(0x09); MulOneLeft(0x0B); MulOneLeft(0x0D); MulOneLeft(0x0E);
    MulBy2(0x09); MulBy2(0x0B); MulBy2(0x0D); MulBy2(0x0E);
    MulBy3(0x09); MulBy3(0x0B); MulBy3(0x0D); MulBy3(0x0E);
  }
}
