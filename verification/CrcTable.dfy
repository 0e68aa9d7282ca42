/** The constant table of src/crc32.c, the loop that generates the same table
    in tests/gen_full.c, and the table-driven CRC loop. */
module CrcTable {
  import opened Crc32

  function Row0(i: bv8): bv32 {
    if i == 0x00 then 0x00000000 else if i == 0x01 then 0x04c11db7
    else if i == 0x02 then 0x09823b6e else if i == 0x03 then 0x0d4326d9
    else if i == 0x04 then 0x130476dc else if i == 0x05 then 0x17c56b6b
    else if i == 0x06 then 0x1a864db2 else if i == 0x07 then 0x1e475005
    else if i == 0x08 then 0x2608edb8 else if i == 0x09 then 0x22c9f00f
    else if i == 0x0A then 0x2f8ad6d6 else if i == 0x0B then 0x2b4bcb61
    else if i == 0x0C then 0x350c9b64 else if i == 0x0D then 0x31cd86d3
    else if i == 0x0E then 0x3c8ea00a else 0x384fbdbd
  }

  function Row1(i: bv8): bv32 {
    if i == 0x10 then 0x4c11db70 else if i == 0x11 then 0x48d0c6c7
    else if i == 0x12 then 0x4593e01e else if i == 0x13 then 0x4152fda9
    else if i == 0x14 then 0x5f15adac else if i == 0x15 then 0x5bd4b01b
    else if i == 0x16 then 0x569796c2 else if i == 0x17 then 0x52568b75
    else if i == 0x18 then 0x6a1936c8 else if i == 0x19 then 0x6ed82b7f
    else if i == 0x1A then 0x639b0da6 else if i == 0x1B then 0x675a1011
    else if i == 0x1C then 0x791d4014 else if i == 0x1D then 0x7ddc5da3
    else if i == 0x1E then 0x709f7b7a else 0x745e66cd
  }

  function Row2(i: bv8): bv32 {
    if i == 0x20 then 0x9823b6e0 else if i == 0x21 then 0x9ce2ab57
    else if i == 0x22 then 0x91a18d8e else if i == 0x23 then 0x95609039
    else if i == 0x24 then 0x8b27c03c else if i == 0x25 then 0x8fe6dd8b
    else if i == 0x26 then 0x82a5fb52 else if i == 0x27 then 0x8664e6e5
    else if i == 0x28 then 0xbe2b5b58 else if i == 0x29 then 0xbaea46ef
    else if i == 0x2A then 0xb7a96036 else if i == 0x2B then 0xb3687d81
    else if i == 0x2C then 0xad2f2d84 else if i == 0x2D then 0xa9ee3033
    else if i == 0x2E then 0xa4ad16ea else 0xa06c0b5d
  }

  function Row3(i: bv8): bv32 {
    if i == 0x30 then 0xd4326d90 else if i == 0x31 then 0xd0f37027
    else if i == 0x32 then 0xddb056fe else if i == 0x33 then 0xd9714b49
    else if i == 0x34 then 0xc7361b4c else if i == 0x35 then 0xc3f706fb
    else if i == 0x36 then 0xceb42022 else if i == 0x37 then 0xca753d95
    else if i == 0x38 then 0xf23a8028 else if i == 0x39 then 0xf6fb9d9f
    else if i == 0x3A then 0xfbb8bb46 else if i == 0x3B then 0xff79a6f1
    else if i == 0x3C then 0xe13ef6f4 else if i == 0x3D then 0xe5ffeb43
    else if i == 0x3E then 0xe8bccd9a else 0xec7dd02d
  }

  function Row4(i: bv8): bv32 {
    if i == 0x40 then 0x34867077 else if i == 0x41 then 0x30476dc0
    else if i == 0x42 then 0x3d044b19 else if i == 0x43 then 0x39c556ae
    else if i == 0x44 then 0x278206ab else if i == 0x45 then 0x23431b1c
    else if i == 0x46 then 0x2e003dc5 else if i == 0x47 then 0x2ac12072
    else if i == 0x48 then 0x128e9dcf else if i == 0x49 then 0x164f8078
    else if i == 0x4A then 0x1b0ca6a1 else if i == 0x4B then 0x1fcdbb16
    else if i == 0x4C then 0x018aeb13 else if i == 0x4D then 0x054bf6a4
    else if i == 0x4E then 0x0808d07d else 0x0cc9cdca
  }

  function Row5(i: bv8): bv32 {
    if i == 0x50 then 0x7897ab07 else if i == 0x51 then 0x7c56b6b0
    else if i == 0x52 then 0x71159069 else if i == 0x53 then 0x75d48dde
    else if i == 0x54 then 0x6b93dddb else if i == 0x55 then 0x6f52c06c
    else if i == 0x56 then 0x6211e6b5 else if i == 0x57 then 0x66d0fb02
    else if i == 0x58 then 0x5e9f46bf else if i == 0x59 then 0x5a5e5b08
    else if i == 0x5A then 0x571d7dd1 else if i == 0x5B then 0x53dc6066
    else if i == 0x5C then 0x4d9b3063 else if i == 0x5D then 0x495a2dd4
    else if i == 0x5E then 0x44190b0d else 0x40d816ba
  }

  function Row6(i: bv8): bv32 {
    if i == 0x60 then 0xaca5c697 else if i == 0x61 then 0xa864db20
    else if i == 0x62 then 0xa527fdf9 else if i == 0x63 then 0xa1e6e04e
    else if i == 0x64 then 0xbfa1b04b else if i == 0x65 then 0xbb60adfc
    else if i == 0x66 then 0xb6238b25 else if i == 0x67 then 0xb2e29692
    else if i == 0x68 then 0x8aad2b2f else if i == 0x69 then 0x8e6c3698
    else if i == 0x6A then 0x832f1041 else if i == 0x6B then 0x87ee0df6
    else if i == 0x6C then 0x99a95df3 else if i == 0x6D then 0x9d684044
    else if i == 0x6E then 0x902b669d else 0x94ea7b2a
  }

  function Row7(i: bv8): bv32 {
    if i == 0x70 then 0xe0b41de7 else if i == 0x71 then 0xe4750050
    else if i == 0x72 then 0xe9362689 else if i == 0x73 then 0xedf73b3e
    else if i == 0x74 then 0xf3b06b3b else if i == 0x75 then 0xf771768c
    else if i == 0x76 then 0xfa325055 else if i == 0x77 then 0xfef34de2
    else if i == 0x78 then 0xc6bcf05f else if i == 0x79 then 0xc27dede8
    else if i == 0x7A then 0xcf3ecb31 else if i == 0x7B then 0xcbffd686
    else if i == 0x7C then 0xd5b88683 else if i == 0x7D then 0xd1799b34
    else if i == 0x7E then 0xdc3abded else 0xd8fba05a
  }

  function Row8(i: bv8): bv32 {
    if i == 0x80 then 0x690ce0ee else if i == 0x81 then 0x6dcdfd59
    else if i == 0x82 then 0x608edb80 else if i == 0x83 then 0x644fc637
    else if i == 0x84 then 0x7a089632 else if i == 0x85 then 0x7ec98b85
    else if i == 0x86 then 0x738aad5c else if i == 0x87 then 0x774bb0eb
    else if i == 0x88 then 0x4f040d56 else if i == 0x89 then 0x4bc510e1
    else if i == 0x8A then 0x46863638 else if i == 0x8B then 0x42472b8f
    else if i == 0x8C then 0x5c007b8a else if i == 0x8D then 0x58c1663d
    else if i == 0x8E then 0x558240e4 else 0x51435d53
  }

  function Row9(i: bv8): bv32 {
    if i == 0x90 then 0x251d3b9e else if i == 0x91 then 0x21dc2629
    else if i == 0x92 then 0x2c9f00f0 else if i == 0x93 then 0x285e1d47
    else if i == 0x94 then 0x36194d42 else if i == 0x95 then 0x32d850f5
    else if i == 0x96 then 0x3f9b762c else if i == 0x97 then 0x3b5a6b9b
    else if i == 0x98 then 0x0315d626 else if i == 0x99 then 0x07d4cb91
    else if i == 0x9A then 0x0a97ed48 else if i == 0x9B then 0x0e56f0ff
    else if i == 0x9C then 0x1011a0fa else if i == 0x9D then 0x14d0bd4d
    else if i == 0x9E then 0x19939b94 else 0x1d528623
  }

  function RowA(i: bv8): bv32 {
    if i == 0xA0 then 0xf12f560e else if i == 0xA1 then 0xf5ee4bb9
    else if i == 0xA2 then 0xf8ad6d60 else if i == 0xA3 then 0xfc6c70d7
    else if i == 0xA4 then 0xe22b20d2 else if i == 0xA5 then 0xe6ea3d65
    else if i == 0xA6 then 0xeba91bbc else if i == 0xA7 then 0xef68060b
    else if i == 0xA8 then 0xd727bbb6 else if i == 0xA9 then 0xd3e6a601
    else if i == 0xAA then 0xdea580d8 else if i == 0xAB then 0xda649d6f
    else if i == 0xAC then 0xc423cd6a else if i == 0xAD then 0xc0e2d0dd
    else if i == 0xAE then 0xcda1f604 else 0xc960ebb3
  }

  function RowB(i: bv8): bv32 {
    if i == 0xB0 then 0xbd3e8d7e else if i == 0xB1 then 0xb9ff90c9
    else if i == 0xB2 then 0xb4bcb610 else if i == 0xB3 then 0xb07daba7
    else if i == 0xB4 then 0xae3afba2 else if i == 0xB5 then 0xaafbe615
    else if i == 0xB6 then 0xa7b8c0cc else if i == 0xB7 then 0xa379dd7b
    else if i == 0xB8 then 0x9b3660c6 else if i == 0xB9 then 0x9ff77d71
    else if i == 0xBA then 0x92b45ba8 else if i == 0xBB then 0x9675461f
    else if i == 0xBC then 0x8832161a else if i == 0xBD then 0x8cf30bad
    else if i == 0xBE then 0x81b02d74 else 0x857130c3
  }

  function RowC(i: bv8): bv32 {
    if i == 0xC0 then 0x5d8a9099 else if i == 0xC1 then 0x594b8d2e
    else if i == 0xC2 then 0x5408abf7 else if i == 0xC3 then 0x50c9b640
    else if i == 0xC4 then 0x4e8ee645 else if i == 0xC5 then 0x4a4ffbf2
    else if i == 0xC6 then 0x470cdd2b else if i == 0xC7 then 0x43cdc09c
    else if i == 0xC8 then 0x7b827d21 else if i == 0xC9 then 0x7f436096
    else if i == 0xCA then 0x7200464f else if i == 0xCB then 0x76c15bf8
    else if i == 0xCC then 0x68860bfd else if i == 0xCD then 0x6c47164a
    else if i == 0xCE then 0x61043093 else 0x65c52d24
  }

  function RowD(i: bv8): bv32 {
    if i == 0xD0 then 0x119b4be9 else if i == 0xD1 then 0x155a565e
    else if i == 0xD2 then 0x18197087 else if i == 0xD3 then 0x1cd86d30
    else if i == 0xD4 then 0x029f3d35 else if i == 0xD5 then 0x065e2082
    else if i == 0xD6 then 0x0b1d065b else if i == 0xD7 then 0x0fdc1bec
    else if i == 0xD8 then 0x3793a651 else if i == 0xD9 then 0x3352bbe6
    else if i == 0xDA then 0x3e119d3f else if i == 0xDB then 0x3ad08088
    else if i == 0xDC then 0x2497d08d else if i == 0xDD then 0x2056cd3a
    else if i == 0xDE then 0x2d15ebe3 else 0x29d4f654
  }

  function RowE(i: bv8): bv32 {
    if i == 0xE0 then 0xc5a92679 else if i == 0xE1 then 0xc1683bce
    else if i == 0xE2 then 0xcc2b1d17 else if i == 0xE3 then 0xc8ea00a0
    else if i == 0xE4 then 0xd6ad50a5 else if i == 0xE5 then 0xd26c4d12
    else if i == 0xE6 then 0xdf2f6bcb else if i == 0xE7 then 0xdbee767c
    else if i == 0xE8 then 0xe3a1cbc1 else if i == 0xE9 then 0xe760d676
    else if i == 0xEA then 0xea23f0af else if i == 0xEB then 0xeee2ed18
    else if i == 0xEC then 0xf0a5bd1d else if i == 0xED then 0xf464a0aa
    else if i == 0xEE then 0xf9278673 else 0xfde69bc4
  }

  function RowF(i: bv8): bv32 {
    if i == 0xF0 then 0x89b8fd09 else if i == 0xF1 then 0x8d79e0be
    else if i == 0xF2 then 0x803ac667 else if i == 0xF3 then 0x84fbdbd0
    else if i == 0xF4 then 0x9abc8bd5 else if i == 0xF5 then 0x9e7d9662
    else if i == 0xF6 then 0x933eb0bb else if i == 0xF7 then 0x97ffad0c
    else if i == 0xF8 then 0xafb010b1 else if i == 0xF9 then 0xab710d06
    else if i == 0xFA then 0xa6322bdf else if i == 0xFB then 0xa2f33668
    else if i == 0xFC then 0xbcb4666d else if i == 0xFD then 0xb8757bda
    else if i == 0xFE then 0xb5365d03 else 0xb1f740b4
  }

  /** `crc_table[i]`. */
  function Table(i: bv8): bv32 {
    var row := i >> 4;
    if row == 0 then Row0(i)
    else if row == 1 then Row1(i)
    else if row == 2 then Row2(i)
    else if row == 3 then Row3(i)
    else if row == 4 then Row4(i)
    else if row == 5 then Row5(i)
    else if row == 6 then Row6(i)
    else if row == 7 then Row7(i)
    else if row == 8 then Row8(i)
    else if row == 9 then Row9(i)
    else if row == 10 then RowA(i)
    else if row == 11 then RowB(i)
    else if row == 12 then RowC(i)
    else if row == 13 then RowD(i)
    else if row == 14 then RowE(i)
    else RowF(i)
  }

  lemma Row0Generated(i: bv8)
    requires i >> 4 == 0
    ensures Row0(i) == Entry(i)
  {
    assert Entry(0x00) == 0x00000000; assert Entry(0x01) == 0x04c11db7; assert Entry(0x02) == 0x09823b6e;
    assert Entry(0x03) == 0x0d4326d9; assert Entry(0x04) == 0x130476dc; assert Entry(0x05) == 0x17c56b6b;
    assert Entry(0x06) == 0x1a864db2; assert Entry(0x07) == 0x1e475005; assert Entry(0x08) == 0x2608edb8;
    assert Entry(0x09) == 0x22c9f00f; assert Entry(0x0A) == 0x2f8ad6d6; assert Entry(0x0B) == 0x2b4bcb61;
    assert Entry(0x0C) == 0x350c9b64; assert Entry(0x0D) == 0x31cd86d3; assert Entry(0x0E) == 0x3c8ea00a;
    assert Entry(0x0F) == 0x384fbdbd;
  }

  lemma Row1Generated(i: bv8)
    requires i >> 4 == 1
    ensures Row1(i) == Entry(i)
  {
    assert Entry(0x10) == 0x4c11db70; assert Entry(0x11) == 0x48d0c6c7; assert Entry(0x12) == 0x4593e01e;
    assert Entry(0x13) == 0x4152fda9; assert Entry(0x14) == 0x5f15adac; assert Entry(0x15) == 0x5bd4b01b;
    assert Entry(0x16) == 0x569796c2; assert Entry(0x17) == 0x52568b75; assert Entry(0x18) == 0x6a1936c8;
    assert Entry(0x19) == 0x6ed82b7f; assert Entry(0x1A) == 0x639b0da6; assert Entry(0x1B) == 0x675a1011;
    assert Entry(0x1C) == 0x791d4014; assert Entry(0x1D) == 0x7ddc5da3; assert Entry(0x1E) == 0x709f7b7a;
    assert Entry(0x1F) == 0x745e66cd;
  }

  lemma Row2Generated(i: bv8)
    requires i >> 4 == 2
    ensures Row2(i) == Entry(i)
  {
    assert Entry(0x20) == 0x9823b6e0; assert Entry(0x21) == 0x9ce2ab57; assert Entry(0x22) == 0x91a18d8e;
    assert Entry(0x23) == 0x95609039; assert Entry(0x24) == 0x8b27c03c; assert Entry(0x25) == 0x8fe6dd8b;
    assert Entry(0x26) == 0x82a5fb52; assert Entry(0x27) == 0x8664e6e5; assert Entry(0x28) == 0xbe2b5b58;
    assert Entry(0x29) == 0xbaea46ef; assert Entry(0x2A) == 0xb7a96036; assert Entry(0x2B) == 0xb3687d81;
    assert Entry(0x2C) == 0xad2f2d84; assert Entry(0x2D) == 0xa9ee3033; assert Entry(0x2E) == 0xa4ad16ea;
    assert Entry(0x2F) == 0xa06c0b5d;
  }

  lemma Row3Generated(i: bv8)
    requires i >> 4 == 3
    ensures Row3(i) == Entry(i)
  {
    assert Entry(0x30) == 0xd4326d90; assert Entry(0x31) == 0xd0f37027; assert Entry(0x32) == 0xddb056fe;
    assert Entry(0x33) == 0xd9714b49; assert Entry(0x34) == 0xc7361b4c; assert Entry(0x35) == 0xc3f706fb;
    assert Entry(0x36) == 0xceb42022; assert Entry(0x37) == 0xca753d95; assert Entry(0x38) == 0xf23a8028;
    assert Entry(0x39) == 0xf6fb9d9f; assert Entry(0x3A) == 0xfbb8bb46; assert Entry(0x3B) == 0xff79a6f1;
    assert Entry(0x3C) == 0xe13ef6f4; assert Entry(0x3D) == 0xe5ffeb43; assert Entry(0x3E) == 0xe8bccd9a;
    assert Entry(0x3F) == 0xec7dd02d;
  }

  lemma Row4Generated(i: bv8)
    requires i >> 4 == 4
    ensures Row4(i) == Entry(i)
  {
    assert Entry(0x40) == 0x34867077; assert Entry(0x41) == 0x30476dc0; assert Entry(0x42) == 0x3d044b19;
    assert Entry(0x43) == 0x39c556ae; assert Entry(0x44) == 0x278206ab; assert Entry(0x45) == 0x23431b1c;
    assert Entry(0x46) == 0x2e003dc5; assert Entry(0x47) == 0x2ac12072; assert Entry(0x48) == 0x128e9dcf;
    assert Entry(0x49) == 0x164f8078; assert Entry(0x4A) == 0x1b0ca6a1; assert Entry(0x4B) == 0x1fcdbb16;
    assert Entry(0x4C) == 0x018aeb13; assert Entry(0x4D) == 0x054bf6a4; assert Entry(0x4E) == 0x0808d07d;
    assert Entry(0x4F) == 0x0cc9cdca;
  }

  lemma Row5Generated(i: bv8)
    requires i >> 4 == 5
    ensures Row5(i) == Entry(i)
  {
    assert Entry(0x50) == 0x7897ab07; assert Entry(0x51) == 0x7c56b6b0; assert Entry(0x52) == 0x71159069;
    assert Entry(0x53) == 0x75d48dde; assert Entry(0x54) == 0x6b93dddb; assert Entry(0x55) == 0x6f52c06c;
    assert Entry(0x56) == 0x6211e6b5; assert Entry(0x57) == 0x66d0fb02; assert Entry(0x58) == 0x5e9f46bf;
    assert Entry(0x59) == 0x5a5e5b08; assert Entry(0x5A) == 0x571d7dd1; assert Entry(0x5B) == 0x53dc6066;
    assert Entry(0x5C) == 0x4d9b3063; assert Entry(0x5D) == 0x495a2dd4; assert Entry(0x5E) == 0x44190b0d;
    assert Entry(0x5F) == 0x40d816ba;
  }

  lemma Row6Generated(i: bv8)
    requires i >> 4 == 6
    ensures Row6(i) == Entry(i)
  {
    assert Entry(0x60) == 0xaca5c697; assert Entry(0x61) == 0xa864db20; assert Entry(0x62) == 0xa527fdf9;
    assert Entry(0x63) == 0xa1e6e04e; assert Entry(0x64) == 0xbfa1b04b; assert Entry(0x65) == 0xbb60adfc;
    assert Entry(0x66) == 0xb6238b25; assert Entry(0x67) == 0xb2e29692; assert Entry(0x68) == 0x8aad2b2f;
    assert Entry(0x69) == 0x8e6c3698; assert Entry(0x6A) == 0x832f1041; assert Entry(0x6B) == 0x87ee0df6;
    assert Entry(0x6C) == 0x99a95df3; assert Entry(0x6D) == 0x9d684044; assert Entry(0x6E) == 0x902b669d;
    assert Entry(0x6F) == 0x94ea7b2a;
  }

  lemma Row7Generated(i: bv8)
    requires i >> 4 == 7
    ensures Row7(i) == Entry(i)
  {
    assert Entry(0x70) == 0xe0b41de7; assert Entry(0x71) == 0xe4750050; assert Entry(0x72) == 0xe9362689;
    assert Entry(0x73) == 0xedf73b3e; assert Entry(0x74) == 0xf3b06b3b; assert Entry(0x75) == 0xf771768c;
    assert Entry(0x76) == 0xfa325055; assert Entry(0x77) == 0xfef34de2; assert Entry(0x78) == 0xc6bcf05f;
    assert Entry(0x79) == 0xc27dede8; assert Entry(0x7A) == 0xcf3ecb31; assert Entry(0x7B) == 0xcbffd686;
    assert Entry(0x7C) == 0xd5b88683; assert Entry(0x7D) == 0xd1799b34; assert Entry(0x7E) == 0xdc3abded;
    assert Entry(0x7F) == 0xd8fba05a;
  }

  lemma Row8Generated(i: bv8)
    requires i >> 4 == 8
    ensures Row8(i) == Entry(i)
  {
    assert Entry(0x80) == 0x690ce0ee; assert Entry(0x81) == 0x6dcdfd59; assert Entry(0x82) == 0x608edb80;
    assert Entry(0x83) == 0x644fc637; assert Entry(0x84) == 0x7a089632; assert Entry(0x85) == 0x7ec98b85;
    assert Entry(0x86) == 0x738aad5c; assert Entry(0x87) == 0x774bb0eb; assert Entry(0x88) == 0x4f040d56;
    assert Entry(0x89) == 0x4bc510e1; assert Entry(0x8A) == 0x46863638; assert Entry(0x8B) == 0x42472b8f;
    assert Entry(0x8C) == 0x5c007b8a; assert Entry(0x8D) == 0x58c1663d; assert Entry(0x8E) == 0x558240e4;
    assert Entry(0x8F) == 0x51435d53;
  }

  lemma Row9Generated(i: bv8)
    requires i >> 4 == 9
    ensures Row9(i) == Entry(i)
  {
    assert Entry(0x90) == 0x251d3b9e; assert Entry(0x91) == 0x21dc2629; assert Entry(0x92) == 0x2c9f00f0;
    assert Entry(0x93) == 0x285e1d47; assert Entry(0x94) == 0x36194d42; assert Entry(0x95) == 0x32d850f5;
    assert Entry(0x96) == 0x3f9b762c; assert Entry(0x97) == 0x3b5a6b9b; assert Entry(0x98) == 0x0315d626;
    assert Entry(0x99) == 0x07d4cb91; assert Entry(0x9A) == 0x0a97ed48; assert Entry(0x9B) == 0x0e56f0ff;
    assert Entry(0x9C) == 0x1011a0fa; assert Entry(0x9D) == 0x14d0bd4d; assert Entry(0x9E) == 0x19939b94;
    assert Entry(0x9F) == 0x1d528623;
  }

  lemma RowAGenerated(i: bv8)
    requires i >> 4 == 10
    ensures RowA(i) == Entry(i)
  {
    assert Entry(0xA0) == 0xf12f560e; assert Entry(0xA1) == 0xf5ee4bb9; assert Entry(0xA2) == 0xf8ad6d60;
    assert Entry(0xA3) == 0xfc6c70d7; assert Entry(0xA4) == 0xe22b20d2; assert Entry(0xA5) == 0xe6ea3d65;
    assert Entry(0xA6) == 0xeba91bbc; assert Entry(0xA7) == 0xef68060b; assert Entry(0xA8) == 0xd727bbb6;
    assert Entry(0xA9) == 0xd3e6a601; assert Entry(0xAA) == 0xdea580d8; assert Entry(0xAB) == 0xda649d6f;
    assert Entry(0xAC) == 0xc423cd6a; assert Entry(0xAD) == 0xc0e2d0dd; assert Entry(0xAE) == 0xcda1f604;
    assert Entry(0xAF) == 0xc960ebb3;
  }

  lemma RowBGenerated(i: bv8)
    requires i >> 4 == 11
    ensures RowB(i) == Entry(i)
  {
    assert Entry(0xB0) == 0xbd3e8d7e; assert Entry(0xB1) == 0xb9ff90c9; assert Entry(0xB2) == 0xb4bcb610;
    assert Entry(0xB3) == 0xb07daba7; assert Entry(0xB4) == 0xae3afba2; assert Entry(0xB5) == 0xaafbe615;
    assert Entry(0xB6) == 0xa7b8c0cc; assert Entry(0xB7) == 0xa379dd7b; assert Entry(0xB8) == 0x9b3660c6;
    assert Entry(0xB9) == 0x9ff77d71; assert Entry(0xBA) == 0x92b45ba8; assert Entry(0xBB) == 0x9675461f;
    assert Entry(0xBC) == 0x8832161a; assert Entry(0xBD) == 0x8cf30bad; assert Entry(0xBE) == 0x81b02d74;
    assert Entry(0xBF) == 0x857130c3;
  }

  lemma RowCGenerated(i: bv8)
    requires i >> 4 == 12
    ensures RowC(i) == Entry(i)
  {
    assert Entry(0xC0) == 0x5d8a9099; assert Entry(0xC1) == 0x594b8d2e; assert Entry(0xC2) == 0x5408abf7;
    assert Entry(0xC3) == 0x50c9b640; assert Entry(0xC4) == 0x4e8ee645; assert Entry(0xC5) == 0x4a4ffbf2;
    assert Entry(0xC6) == 0x470cdd2b; assert Entry(0xC7) == 0x43cdc09c; assert Entry(0xC8) == 0x7b827d21;
    assert Entry(0xC9) == 0x7f436096; assert Entry(0xCA) == 0x7200464f; assert Entry(0xCB) == 0x76c15bf8;
    assert Entry(0xCC) == 0x68860bfd; assert Entry(0xCD) == 0x6c47164a; assert Entry(0xCE) == 0x61043093;
    assert Entry(0xCF) == 0x65c52d24;
  }

  lemma RowDGenerated(i: bv8)
    requires i >> 4 == 13
    ensures RowD(i) == Entry(i)
  {
    assert Entry(0xD0) == 0x119b4be9; assert Entry(0xD1) == 0x155a565e; assert Entry(0xD2) == 0x18197087;
    assert Entry(0xD3) == 0x1cd86d30; assert Entry(0xD4) == 0x029f3d35; assert Entry(0xD5) == 0x065e2082;
    assert Entry(0xD6) == 0x0b1d065b; assert Entry(0xD7) == 0x0fdc1bec; assert Entry(0xD8) == 0x3793a651;
    assert Entry(0xD9) == 0x3352bbe6; assert Entry(0xDA) == 0x3e119d3f; assert Entry(0xDB) == 0x3ad08088;
    assert Entry(0xDC) == 0x2497d08d; assert Entry(0xDD) == 0x2056cd3a; assert Entry(0xDE) == 0x2d15ebe3;
    assert Entry(0xDF) == 0x29d4f654;
  }

  lemma RowEGenerated(i: bv8)
    requires i >> 4 == 14
    ensures RowE(i) == Entry(i)
  {
    assert Entry(0xE0) == 0xc5a92679; assert Entry(0xE1) == 0xc1683bce; assert Entry(0xE2) == 0xcc2b1d17;
    assert Entry(0xE3) == 0xc8ea00a0; assert Entry(0xE4) == 0xd6ad50a5; assert Entry(0xE5) == 0xd26c4d12;
    assert Entry(0xE6) == 0xdf2f6bcb; assert Entry(0xE7) == 0xdbee767c; assert Entry(0xE8) == 0xe3a1cbc1;
    assert Entry(0xE9) == 0xe760d676; assert Entry(0xEA) == 0xea23f0af; assert Entry(0xEB) == 0xeee2ed18;
    assert Entry(0xEC) == 0xf0a5bd1d; assert Entry(0xED) == 0xf464a0aa; assert Entry(0xEE) == 0xf9278673;
    assert Entry(0xEF) == 0xfde69bc4;
  }

  lemma RowFGenerated(i: bv8)
    requires i >> 4 == 15
    ensures RowF(i) == Entry(i)
  {
    assert Entry(0xF0) == 0x89b8fd09; assert Entry(0xF1) == 0x8d79e0be; assert Entry(0xF2) == 0x803ac667;
    assert Entry(0xF3) == 0x84fbdbd0; assert Entry(0xF4) == 0x9abc8bd5; assert Entry(0xF5) == 0x9e7d9662;
    assert Entry(0xF6) == 0x933eb0bb; assert Entry(0xF7) == 0x97ffad0c; assert Entry(0xF8) == 0xafb010b1;
    assert Entry(0xF9) == 0xab710d06; assert Entry(0xFA) == 0xa6322bdf; assert Entry(0xFB) == 0xa2f33668;
    assert Entry(0xFC) == 0xbcb4666d; assert Entry(0xFD) == 0xb8757bda; assert Entry(0xFE) == 0xb5365d03;
    assert Entry(0xFF) == 0xb1f740b4;
  }

  /** Every constant of the table is the index clocked through the register. */
  lemma TableGenerated(i: bv8)
    ensures Table(i) == Entry(i)
  {
    var row := i >> 4;
    if row == 0 { Row0Generated(i); }
    else if row == 1 { Row1Generated(i); }
    else if row == 2 { Row2Generated(i); }
    else if row == 3 { Row3Generated(i); }
    else if row == 4 { Row4Generated(i); }
    else if row == 5 { Row5Generated(i); }
    else if row == 6 { Row6Generated(i); }
    else if row == 7 { Row7Generated(i); }
    else if row == 8 { Row8Generated(i); }
    else if row == 9 { Row9Generated(i); }
    else if row == 10 { RowAGenerated(i); }
    else if row == 11 { RowBGenerated(i); }
    else if row == 12 { RowCGenerated(i); }
    else if row == 13 { RowDGenerated(i); }
    else if row == 14 { RowEGenerated(i); }
    else { RowFGenerated(i); }
  }

  /** The inner loop of `crc_init`. */
  method GenerateEntry(i: bv8) returns (c: bv32)
    ensures c == Entry(i)
  {
    c := (i as bv32) << 24;
    var k := 0;
    while k < 8
      invariant 0 <= k <= 8
      invariant ClockN(c, 8 - k) == Entry(i)
    {
      c := if c & 0x80000000 != 0 then (c << 1) ^ 0x04C11DB7 else c << 1;
      k := k + 1;
    }
  }

  /** `crc_init` builds the same table. */
  method GenerateTable() returns (table: array<bv32>)
    ensures fresh(table) && table.Length == 256
    ensures forall n :: 0 <= n < 256 ==> table[n] == Table(n as bv8)
  {
    hide Table, Entry;
    table := new bv32[256];
    var n := 0;
    while n < 256
      invariant 0 <= n <= 256
      invariant forall k :: 0 <= k < n ==> table[k] == Table(k as bv8)
    {
      var c := GenerateEntry(n as bv8);
      TableGenerated(n as bv8);
      table[n] := c;
      n := n + 1;
    }
  }

  /** The CRC loop, for any start register; src/crc32.c starts at 0xffffffff,
      tests/gen_full.c at 0. */
  method Compute(start: bv32, data: seq<bv8>) returns (crc: bv32)
    ensures crc == Crc(start, data)
    ensures crc == ShiftBits(start, MessageBits(data))
  {
    hide Table, Entry;
    crc := start;
    var i := 0;
    while i < |data|
      invariant 0 <= i <= |data|
      invariant Crc(crc, data[i..]) == Crc(start, data)
    {
      CrcStep(crc, data, i);
      TableGenerated(((crc >> 24) as bv8) ^ data[i]);
      crc := (crc << 8) ^ Table(((crc >> 24) as bv8) ^ data[i]);
      i := i + 1;
    }
    assert data[i..] == [];
    CrcIsSerial(start, data);
  }
}
