/** CRC64 with the Jones polynomial, by its table of 256 entries. */
module Crc64 {

  // ----- the table ---------------------------------------------------------------------------

  function Row0(i: bv8): bv64 {
    if i == 0x00 then 0x0000000000000000
    else if i == 0x01 then 0x7ad870c830358979
    else if i == 0x02 then 0xf5b0e190606b12f2
    else if i == 0x03 then 0x8f689158505e9b8b
    else if i == 0x04 then 0xc038e5739841b68f
    else if i == 0x05 then 0xbae095bba8743ff6
    else if i == 0x06 then 0x358804e3f82aa47d
    else if i == 0x07 then 0x4f50742bc81f2d04
    else if i == 0x08 then 0xab28ecb46814fe75
    else if i == 0x09 then 0xd1f09c7c5821770c
    else if i == 0x0a then 0x5e980d24087fec87
    else if i == 0x0b then 0x24407dec384a65fe
    else if i == 0x0c then 0x6b1009c7f05548fa
    else if i == 0x0d then 0x11c8790fc060c183
    else if i == 0x0e then 0x9ea0e857903e5a08
    else 0xe478989fa00bd371
  }

  function Row1(i: bv8): bv64 {
    if i == 0x10 then 0x7d08ff3b88be6f81
    else if i == 0x11 then 0x07d08ff3b88be6f8
    else if i == 0x12 then 0x88b81eabe8d57d73
    else if i == 0x13 then 0xf2606e63d8e0f40a
    else if i == 0x14 then 0xbd301a4810ffd90e
    else if i == 0x15 then 0xc7e86a8020ca5077
    else if i == 0x16 then 0x4880fbd87094cbfc
    else if i == 0x17 then 0x32588b1040a14285
    else if i == 0x18 then 0xd620138fe0aa91f4
    else if i == 0x19 then 0xacf86347d09f188d
    else if i == 0x1a then 0x2390f21f80c18306
    else if i == 0x1b then 0x594882d7b0f40a7f
    else if i == 0x1c then 0x1618f6fc78eb277b
    else if i == 0x1d then 0x6cc0863448deae02
    else if i == 0x1e then 0xe3a8176c18803589
    else 0x997067a428b5bcf0
  }

  function Row2(i: bv8): bv64 {
    if i == 0x20 then 0xfa11fe77117cdf02
    else if i == 0x21 then 0x80c98ebf2149567b
    else if i == 0x22 then 0x0fa11fe77117cdf0
    else if i == 0x23 then 0x75796f2f41224489
    else if i == 0x24 then 0x3a291b04893d698d
    else if i == 0x25 then 0x40f16bccb908e0f4
    else if i == 0x26 then 0xcf99fa94e9567b7f
    else if i == 0x27 then 0xb5418a5cd963f206
    else if i == 0x28 then 0x513912c379682177
    else if i == 0x29 then 0x2be1620b495da80e
    else if i == 0x2a then 0xa489f35319033385
    else if i == 0x2b then 0xde51839b2936bafc
    else if i == 0x2c then 0x9101f7b0e12997f8
    else if i == 0x2d then 0xebd98778d11c1e81
    else if i == 0x2e then 0x64b116208142850a
    else 0x1e6966e8b1770c73
  }

  function Row3(i: bv8): bv64 {
    if i == 0x30 then 0x8719014c99c2b083
    else if i == 0x31 then 0xfdc17184a9f739fa
    else if i == 0x32 then 0x72a9e0dcf9a9a271
    else if i == 0x33 then 0x08719014c99c2b08
    else if i == 0x34 then 0x4721e43f0183060c
    else if i == 0x35 then 0x3df994f731b68f75
    else if i == 0x36 then 0xb29105af61e814fe
    else if i == 0x37 then 0xc849756751dd9d87
    else if i == 0x38 then 0x2c31edf8f1d64ef6
    else if i == 0x39 then 0x56e99d30c1e3c78f
    else if i == 0x3a then 0xd9810c6891bd5c04
    else if i == 0x3b then 0xa3597ca0a188d57d
    else if i == 0x3c then 0xec09088b6997f879
    else if i == 0x3d then 0x96d1784359a27100
    else if i == 0x3e then 0x19b9e91b09fcea8b
    else 0x636199d339c963f2
  }

  function Row4(i: bv8): bv64 {
    if i == 0x40 then 0xdf7adabd7a6e2d6f
    else if i == 0x41 then 0xa5a2aa754a5ba416
    else if i == 0x42 then 0x2aca3b2d1a053f9d
    else if i == 0x43 then 0x50124be52a30b6e4
    else if i == 0x44 then 0x1f423fcee22f9be0
    else if i == 0x45 then 0x659a4f06d21a1299
    else if i == 0x46 then 0xeaf2de5e82448912
    else if i == 0x47 then 0x902aae96b271006b
    else if i == 0x48 then 0x74523609127ad31a
    else if i == 0x49 then 0x0e8a46c1224f5a63
    else if i == 0x4a then 0x81e2d7997211c1e8
    else if i == 0x4b then 0xfb3aa75142244891
    else if i == 0x4c then 0xb46ad37a8a3b6595
    else if i == 0x4d then 0xceb2a3b2ba0eecec
    else if i == 0x4e then 0x41da32eaea507767
    else 0x3b024222da65fe1e
  }

  function Row5(i: bv8): bv64 {
    if i == 0x50 then 0xa2722586f2d042ee
    else if i == 0x51 then 0xd8aa554ec2e5cb97
    else if i == 0x52 then 0x57c2c41692bb501c
    else if i == 0x53 then 0x2d1ab4dea28ed965
    else if i == 0x54 then 0x624ac0f56a91f461
    else if i == 0x55 then 0x1892b03d5aa47d18
    else if i == 0x56 then 0x97fa21650afae693
    else if i == 0x57 then 0xed2251ad3acf6fea
    else if i == 0x58 then 0x095ac9329ac4bc9b
    else if i == 0x59 then 0x7382b9faaaf135e2
    else if i == 0x5a then 0xfcea28a2faafae69
    else if i == 0x5b then 0x8632586aca9a2710
    else if i == 0x5c then 0xc9622c4102850a14
    else if i == 0x5d then 0xb3ba5c8932b0836d
    else if i == 0x5e then 0x3cd2cdd162ee18e6
    else 0x460abd1952db919f
  }

  function Row6(i: bv8): bv64 {
    if i == 0x60 then 0x256b24ca6b12f26d
    else if i == 0x61 then 0x5fb354025b277b14
    else if i == 0x62 then 0xd0dbc55a0b79e09f
    else if i == 0x63 then 0xaa03b5923b4c69e6
    else if i == 0x64 then 0xe553c1b9f35344e2
    else if i == 0x65 then 0x9f8bb171c366cd9b
    else if i == 0x66 then 0x10e3202993385610
    else if i == 0x67 then 0x6a3b50e1a30ddf69
    else if i == 0x68 then 0x8e43c87e03060c18
    else if i == 0x69 then 0xf49bb8b633338561
    else if i == 0x6a then 0x7bf329ee636d1eea
    else if i == 0x6b then 0x012b592653589793
    else if i == 0x6c then 0x4e7b2d0d9b47ba97
    else if i == 0x6d then 0x34a35dc5ab7233ee
    else if i == 0x6e then 0xbbcbcc9dfb2ca865
    else 0xc113bc55cb19211c
  }

  function Row7(i: bv8): bv64 {
    if i == 0x70 then 0x5863dbf1e3ac9dec
    else if i == 0x71 then 0x22bbab39d3991495
    else if i == 0x72 then 0xadd33a6183c78f1e
    else if i == 0x73 then 0xd70b4aa9b3f20667
    else if i == 0x74 then 0x985b3e827bed2b63
    else if i == 0x75 then 0xe2834e4a4bd8a21a
    else if i == 0x76 then 0x6debdf121b863991
    else if i == 0x77 then 0x1733afda2bb3b0e8
    else if i == 0x78 then 0xf34b37458bb86399
    else if i == 0x79 then 0x8993478dbb8deae0
    else if i == 0x7a then 0x06fbd6d5ebd3716b
    else if i == 0x7b then 0x7c23a61ddbe6f812
    else if i == 0x7c then 0x3373d23613f9d516
    else if i == 0x7d then 0x49aba2fe23cc5c6f
    else if i == 0x7e then 0xc6c333a67392c7e4
    else 0xbc1b436e43a74e9d
  }

  function Row8(i: bv8): bv64 {
    if i == 0x80 then 0x95ac9329ac4bc9b5
    else if i == 0x81 then 0xef74e3e19c7e40cc
    else if i == 0x82 then 0x601c72b9cc20db47
    else if i == 0x83 then 0x1ac40271fc15523e
    else if i == 0x84 then 0x5594765a340a7f3a
    else if i == 0x85 then 0x2f4c0692043ff643
    else if i == 0x86 then 0xa02497ca54616dc8
    else if i == 0x87 then 0xdafce7026454e4b1
    else if i == 0x88 then 0x3e847f9dc45f37c0
    else if i == 0x89 then 0x445c0f55f46abeb9
    else if i == 0x8a then 0xcb349e0da4342532
    else if i == 0x8b then 0xb1eceec59401ac4b
    else if i == 0x8c then 0xfebc9aee5c1e814f
    else if i == 0x8d then 0x8464ea266c2b0836
    else if i == 0x8e then 0x0b0c7b7e3c7593bd
    else 0x71d40bb60c401ac4
  }

  function Row9(i: bv8): bv64 {
    if i == 0x90 then 0xe8a46c1224f5a634
    else if i == 0x91 then 0x927c1cda14c02f4d
    else if i == 0x92 then 0x1d148d82449eb4c6
    else if i == 0x93 then 0x67ccfd4a74ab3dbf
    else if i == 0x94 then 0x289c8961bcb410bb
    else if i == 0x95 then 0x5244f9a98c8199c2
    else if i == 0x96 then 0xdd2c68f1dcdf0249
    else if i == 0x97 then 0xa7f41839ecea8b30
    else if i == 0x98 then 0x438c80a64ce15841
    else if i == 0x99 then 0x3954f06e7cd4d138
    else if i == 0x9a then 0xb63c61362c8a4ab3
    else if i == 0x9b then 0xcce411fe1cbfc3ca
    else if i == 0x9c then 0x83b465d5d4a0eece
    else if i == 0x9d then 0xf96c151de49567b7
    else if i == 0x9e then 0x76048445b4cbfc3c
    else 0x0cdcf48d84fe7545
  }

  function RowA(i: bv8): bv64 {
    if i == 0xa0 then 0x6fbd6d5ebd3716b7
    else if i == 0xa1 then 0x15651d968d029fce
    else if i == 0xa2 then 0x9a0d8ccedd5c0445
    else if i == 0xa3 then 0xe0d5fc06ed698d3c
    else if i == 0xa4 then 0xaf85882d2576a038
    else if i == 0xa5 then 0xd55df8e515432941
    else if i == 0xa6 then 0x5a3569bd451db2ca
    else if i == 0xa7 then 0x20ed197575283bb3
    else if i == 0xa8 then 0xc49581ead523e8c2
    else if i == 0xa9 then 0xbe4df122e51661bb
    else if i == 0xaa then 0x3125607ab548fa30
    else if i == 0xab then 0x4bfd10b2857d7349
    else if i == 0xac then 0x04ad64994d625e4d
    else if i == 0xad then 0x7e7514517d57d734
    else if i == 0xae then 0xf11d85092d094cbf
    else 0x8bc5f5c11d3cc5c6
  }

  function RowB(i: bv8): bv64 {
    if i == 0xb0 then 0x12b5926535897936
    else if i == 0xb1 then 0x686de2ad05bcf04f
    else if i == 0xb2 then 0xe70573f555e26bc4
    else if i == 0xb3 then 0x9ddd033d65d7e2bd
    else if i == 0xb4 then 0xd28d7716adc8cfb9
    else if i == 0xb5 then 0xa85507de9dfd46c0
    else if i == 0xb6 then 0x273d9686cda3dd4b
    else if i == 0xb7 then 0x5de5e64efd965432
    else if i == 0xb8 then 0xb99d7ed15d9d8743
    else if i == 0xb9 then 0xc3450e196da80e3a
    else if i == 0xba then 0x4c2d9f413df695b1
    else if i == 0xbb then 0x36f5ef890dc31cc8
    else if i == 0xbc then 0x79a59ba2c5dc31cc
    else if i == 0xbd then 0x037deb6af5e9b8b5
    else if i == 0xbe then 0x8c157a32a5b7233e
    else 0xf6cd0afa9582aa47
  }

  function RowC(i: bv8): bv64 {
    if i == 0xc0 then 0x4ad64994d625e4da
    else if i == 0xc1 then 0x300e395ce6106da3
    else if i == 0xc2 then 0xbf66a804b64ef628
    else if i == 0xc3 then 0xc5bed8cc867b7f51
    else if i == 0xc4 then 0x8aeeace74e645255
    else if i == 0xc5 then 0xf036dc2f7e51db2c
    else if i == 0xc6 then 0x7f5e4d772e0f40a7
    else if i == 0xc7 then 0x05863dbf1e3ac9de
    else if i == 0xc8 then 0xe1fea520be311aaf
    else if i == 0xc9 then 0x9b26d5e88e0493d6
    else if i == 0xca then 0x144e44b0de5a085d
    else if i == 0xcb then 0x6e963478ee6f8124
    else if i == 0xcc then 0x21c640532670ac20
    else if i == 0xcd then 0x5b1e309b16452559
    else if i == 0xce then 0xd476a1c3461bbed2
    else 0xaeaed10b762e37ab
  }

  function RowD(i: bv8): bv64 {
    if i == 0xd0 then 0x37deb6af5e9b8b5b
    else if i == 0xd1 then 0x4d06c6676eae0222
    else if i == 0xd2 then 0xc26e573f3ef099a9
    else if i == 0xd3 then 0xb8b627f70ec510d0
    else if i == 0xd4 then 0xf7e653dcc6da3dd4
    else if i == 0xd5 then 0x8d3e2314f6efb4ad
    else if i == 0xd6 then 0x0256b24ca6b12f26
    else if i == 0xd7 then 0x788ec2849684a65f
    else if i == 0xd8 then 0x9cf65a1b368f752e
    else if i == 0xd9 then 0xe62e2ad306bafc57
    else if i == 0xda then 0x6946bb8b56e467dc
    else if i == 0xdb then 0x139ecb4366d1eea5
    else if i == 0xdc then 0x5ccebf68aecec3a1
    else if i == 0xdd then 0x2616cfa09efb4ad8
    else if i == 0xde then 0xa97e5ef8cea5d153
    else 0xd3a62e30fe90582a
  }

  function RowE(i: bv8): bv64 {
    if i == 0xe0 then 0xb0c7b7e3c7593bd8
    else if i == 0xe1 then 0xca1fc72bf76cb2a1
    else if i == 0xe2 then 0x45775673a732292a
    else if i == 0xe3 then 0x3faf26bb9707a053
    else if i == 0xe4 then 0x70ff52905f188d57
    else if i == 0xe5 then 0x0a2722586f2d042e
    else if i == 0xe6 then 0x854fb3003f739fa5
    else if i == 0xe7 then 0xff97c3c80f4616dc
    else if i == 0xe8 then 0x1bef5b57af4dc5ad
    else if i == 0xe9 then 0x61372b9f9f784cd4
    else if i == 0xea then 0xee5fbac7cf26d75f
    else if i == 0xeb then 0x9487ca0fff135e26
    else if i == 0xec then 0xdbd7be24370c7322
    else if i == 0xed then 0xa10fceec0739fa5b
    else if i == 0xee then 0x2e675fb4576761d0
    else 0x54bf2f7c6752e8a9
  }

  function RowF(i: bv8): bv64 {
    if i == 0xf0 then 0xcdcf48d84fe75459
    else if i == 0xf1 then 0xb71738107fd2dd20
    else if i == 0xf2 then 0x387fa9482f8c46ab
    else if i == 0xf3 then 0x42a7d9801fb9cfd2
    else if i == 0xf4 then 0x0df7adabd7a6e2d6
    else if i == 0xf5 then 0x772fdd63e7936baf
    else if i == 0xf6 then 0xf8474c3bb7cdf024
    else if i == 0xf7 then 0x829f3cf387f8795d
    else if i == 0xf8 then 0x66e7a46c27f3aa2c
    else if i == 0xf9 then 0x1c3fd4a417c62355
    else if i == 0xfa then 0x935745fc4798b8de
    else if i == 0xfb then 0xe98f353477ad31a7
    else if i == 0xfc then 0xa6df411fbfb21ca3
    else if i == 0xfd then 0xdc0731d78f8795da
    else if i == 0xfe then 0x536fa08fdfd90e51
    else 0x29b7d047efec8728
  }

  /** crc64_tab. */
  function Tab(i: bv8): bv64 {
    if i < 0x10 then Row0(i)
    else if i < 0x20 then Row1(i)
    else if i < 0x30 then Row2(i)
    else if i < 0x40 then Row3(i)
    else if i < 0x50 then Row4(i)
    else if i < 0x60 then Row5(i)
    else if i < 0x70 then Row6(i)
    else if i < 0x80 then Row7(i)
    else if i < 0x90 then Row8(i)
    else if i < 0xa0 then Row9(i)
    else if i < 0xb0 then RowA(i)
    else if i < 0xc0 then RowB(i)
    else if i < 0xd0 then RowC(i)
    else if i < 0xe0 then RowD(i)
    else if i < 0xf0 then RowE(i)
    else RowF(i)
  }

  /** One step of the shift register, with the reflected polynomial 0xad93d23594c935a9. */
  function Shift(x: bv64): bv64 {
    if x & 1 == 1 then (x >> 1) ^ 0x95ac9329ac4bc9b5 else x >> 1
  }

  /** Eight steps on one byte. */
  function Generated(i: bv8): bv64 {
    Shift(Shift(Shift(Shift(Shift(Shift(Shift(Shift(i as bv64))))))))
  }

  lemma RowGenerated0(i: bv8)
    requires 0x00 <= i <= 0x0f
    ensures Row0(i) == Generated(i)
  {
    if i == 0x00 { }
    else if i == 0x01 { }
    else if i == 0x02 { }
    else if i == 0x03 { }
    else if i == 0x04 { }
    else if i == 0x05 { }
    else if i == 0x06 { }
    else if i == 0x07 { }
    else if i == 0x08 { }
    else if i == 0x09 { }
    else if i == 0x0a { }
    else if i == 0x0b { }
    else if i == 0x0c { }
    else if i == 0x0d { }
    else if i == 0x0e { }
    else { assert i == 0x0f; }
  }

  lemma RowGenerated1(i: bv8)
    requires 0x10 <= i <= 0x1f
    ensures Row1(i) == Generated(i)
  {
    if i == 0x10 { }
    else if i == 0x11 { }
    else if i == 0x12 { }
    else if i == 0x13 { }
    else if i == 0x14 { }
    else if i == 0x15 { }
    else if i == 0x16 { }
    else if i == 0x17 { }
    else if i == 0x18 { }
    else if i == 0x19 { }
    else if i == 0x1a { }
    else if i == 0x1b { }
    else if i == 0x1c { }
    else if i == 0x1d { }
    else if i == 0x1e { }
    else { assert i == 0x1f; }
  }

  lemma RowGenerated2(i: bv8)
    requires 0x20 <= i <= 0x2f
    ensures Row2(i) == Generated(i)
  {
    if i == 0x20 { }
    else if i == 0x21 { }
    else if i == 0x22 { }
    else if i == 0x23 { }
    else if i == 0x24 { }
    else if i == 0x25 { }
    else if i == 0x26 { }
    else if i == 0x27 { }
    else if i == 0x28 { }
    else if i == 0x29 { }
    else if i == 0x2a { }
    else if i == 0x2b { }
    else if i == 0x2c { }
    else if i == 0x2d { }
    else if i == 0x2e { }
    else { assert i == 0x2f; }
  }

  lemma RowGenerated3(i: bv8)
    requires 0x30 <= i <= 0x3f
    ensures Row3(i) == Generated(i)
  {
    if i == 0x30 { }
    else if i == 0x31 { }
    else if i == 0x32 { }
    else if i == 0x33 { }
    else if i == 0x34 { }
    else if i == 0x35 { }
    else if i == 0x36 { }
    else if i == 0x37 { }
    else if i == 0x38 { }
    else if i == 0x39 { }
    else if i == 0x3a { }
    else if i == 0x3b { }
    else if i == 0x3c { }
    else if i == 0x3d { }
    else if i == 0x3e { }
    else { assert i == 0x3f; }
  }

  lemma RowGenerated4(i: bv8)
    requires 0x40 <= i <= 0x4f
    ensures Row4(i) == Generated(i)
  {
    if i == 0x40 { }
    else if i == 0x41 { }
    else if i == 0x42 { }
    else if i == 0x43 { }
    else if i == 0x44 { }
    else if i == 0x45 { }
    else if i == 0x46 { }
    else if i == 0x47 { }
    else if i == 0x48 { }
    else if i == 0x49 { }
    else if i == 0x4a { }
    else if i == 0x4b { }
    else if i == 0x4c { }
    else if i == 0x4d { }
    else if i == 0x4e { }
    else { assert i == 0x4f; }
  }

  lemma RowGenerated5(i: bv8)
    requires 0x50 <= i <= 0x5f
    ensures Row5(i) == Generated(i)
  {
    if i == 0x50 { }
    else if i == 0x51 { }
    else if i == 0x52 { }
    else if i == 0x53 { }
    else if i == 0x54 { }
    else if i == 0x55 { }
    else if i == 0x56 { }
    else if i == 0x57 { }
    else if i == 0x58 { }
    else if i == 0x59 { }
    else if i == 0x5a { }
    else if i == 0x5b { }
    else if i == 0x5c { }
    else if i == 0x5d { }
    else if i == 0x5e { }
    else { assert i == 0x5f; }
  }

  lemma RowGenerated6(i: bv8)
    requires 0x60 <= i <= 0x6f
    ensures Row6(i) == Generated(i)
  {
    if i == 0x60 { }
    else if i == 0x61 { }
    else if i == 0x62 { }
    else if i == 0x63 { }
    else if i == 0x64 { }
    else if i == 0x65 { }
    else if i == 0x66 { }
    else if i == 0x67 { }
    else if i == 0x68 { }
    else if i == 0x69 { }
    else if i == 0x6a { }
    else if i == 0x6b { }
    else if i == 0x6c { }
    else if i == 0x6d { }
    else if i == 0x6e { }
    else { assert i == 0x6f; }
  }

  lemma RowGenerated7(i: bv8)
    requires 0x70 <= i <= 0x7f
    ensures Row7(i) == Generated(i)
  {
    if i == 0x70 { }
    else if i == 0x71 { }
    else if i == 0x72 { }
    else if i == 0x73 { }
    else if i == 0x74 { }
    else if i == 0x75 { }
    else if i == 0x76 { }
    else if i == 0x77 { }
    else if i == 0x78 { }
    else if i == 0x79 { }
    else if i == 0x7a { }
    else if i == 0x7b { }
    else if i == 0x7c { }
    else if i == 0x7d { }
    else if i == 0x7e { }
    else { assert i == 0x7f; }
  }

  lemma RowGenerated8(i: bv8)
    requires 0x80 <= i <= 0x8f
    ensures Row8(i) == Generated(i)
  {
    if i == 0x80 { }
    else if i == 0x81 { }
    else if i == 0x82 { }
    else if i == 0x83 { }
    else if i == 0x84 { }
    else if i == 0x85 { }
    else if i == 0x86 { }
    else if i == 0x87 { }
    else if i == 0x88 { }
    else if i == 0x89 { }
    else if i == 0x8a { }
    else if i == 0x8b { }
    else if i == 0x8c { }
    else if i == 0x8d { }
    else if i == 0x8e { }
    else { assert i == 0x8f; }
  }

  lemma RowGenerated9(i: bv8)
    requires 0x90 <= i <= 0x9f
    ensures Row9(i) == Generated(i)
  {
    if i == 0x90 { }
    else if i == 0x91 { }
    else if i == 0x92 { }
    else if i == 0x93 { }
    else if i == 0x94 { }
    else if i == 0x95 { }
    else if i == 0x96 { }
    else if i == 0x97 { }
    else if i == 0x98 { }
    else if i == 0x99 { }
    else if i == 0x9a { }
    else if i == 0x9b { }
    else if i == 0x9c { }
    else if i == 0x9d { }
    else if i == 0x9e { }
    else { assert i == 0x9f; }
  }

  lemma RowGeneratedA(i: bv8)
    requires 0xa0 <= i <= 0xaf
    ensures RowA(i) == Generated(i)
  {
    if i == 0xa0 { }
    else if i == 0xa1 { }
    else if i == 0xa2 { }
    else if i == 0xa3 { }
    else if i == 0xa4 { }
    else if i == 0xa5 { }
    else if i == 0xa6 { }
    else if i == 0xa7 { }
    else if i == 0xa8 { }
    else if i == 0xa9 { }
    else if i == 0xaa { }
    else if i == 0xab { }
    else if i == 0xac { }
    else if i == 0xad { }
    else if i == 0xae { }
    else { assert i == 0xaf; }
  }

  lemma RowGeneratedB(i: bv8)
    requires 0xb0 <= i <= 0xbf
    ensures RowB(i) == Generated(i)
  {
    if i == 0xb0 { }
    else if i == 0xb1 { }
    else if i == 0xb2 { }
    else if i == 0xb3 { }
    else if i == 0xb4 { }
    else if i == 0xb5 { }
    else if i == 0xb6 { }
    else if i == 0xb7 { }
    else if i == 0xb8 { }
    else if i == 0xb9 { }
    else if i == 0xba { }
    else if i == 0xbb { }
    else if i == 0xbc { }
    else if i == 0xbd { }
    else if i == 0xbe { }
    else { assert i == 0xbf; }
  }

  lemma RowGeneratedC(i: bv8)
    requires 0xc0 <= i <= 0xcf
    ensures RowC(i) == Generated(i)
  {
    if i == 0xc0 { }
    else if i == 0xc1 { }
    else if i == 0xc2 { }
    else if i == 0xc3 { }
    else if i == 0xc4 { }
    else if i == 0xc5 { }
    else if i == 0xc6 { }
    else if i == 0xc7 { }
    else if i == 0xc8 { }
    else if i == 0xc9 { }
    else if i == 0xca { }
    else if i == 0xcb { }
    else if i == 0xcc { }
    else if i == 0xcd { }
    else if i == 0xce { }
    else { assert i == 0xcf; }
  }

  lemma RowGeneratedD(i: bv8)
    requires 0xd0 <= i <= 0xdf
    ensures RowD(i) == Generated(i)
  {
    if i == 0xd0 { }
    else if i == 0xd1 { }
    else if i == 0xd2 { }
    else if i == 0xd3 { }
    else if i == 0xd4 { }
    else if i == 0xd5 { }
    else if i == 0xd6 { }
    else if i == 0xd7 { }
    else if i == 0xd8 { }
    else if i == 0xd9 { }
    else if i == 0xda { }
    else if i == 0xdb { }
    else if i == 0xdc { }
    else if i == 0xdd { }
    else if i == 0xde { }
    else { assert i == 0xdf; }
  }

  lemma RowGeneratedE(i: bv8)
    requires 0xe0 <= i <= 0xef
    ensures RowE(i) == Generated(i)
  {
    if i == 0xe0 { }
    else if i == 0xe1 { }
    else if i == 0xe2 { }
    else if i == 0xe3 { }
    else if i == 0xe4 { }
    else if i == 0xe5 { }
    else if i == 0xe6 { }
    else if i == 0xe7 { }
    else if i == 0xe8 { }
    else if i == 0xe9 { }
    else if i == 0xea { }
    else if i == 0xeb { }
    else if i == 0xec { }
    else if i == 0xed { }
    else if i == 0xee { }
    else { assert i == 0xef; }
  }

  lemma RowGeneratedF(i: bv8)
    requires 0xf0 <= i <= 0xff
    ensures RowF(i) == Generated(i)
  {
    if i == 0xf0 { }
    else if i == 0xf1 { }
    else if i == 0xf2 { }
    else if i == 0xf3 { }
    else if i == 0xf4 { }
    else if i == 0xf5 { }
    else if i == 0xf6 { }
    else if i == 0xf7 { }
    else if i == 0xf8 { }
    else if i == 0xf9 { }
    else if i == 0xfa { }
    else if i == 0xfb { }
    else if i == 0xfc { }
    else if i == 0xfd { }
    else if i == 0xfe { }
    else { assert i == 0xff; }
  }

  /** The table is the one that the polynomial generates. */
  lemma TableGenerated(i: bv8)
    ensures Tab(i) == Generated(i)
  {
    if i < 0x10 { RowGenerated0(i); }
    else if i < 0x20 { RowGenerated1(i); }
    else if i < 0x30 { RowGenerated2(i); }
    else if i < 0x40 { RowGenerated3(i); }
    else if i < 0x50 { RowGenerated4(i); }
    else if i < 0x60 { RowGenerated5(i); }
    else if i < 0x70 { RowGenerated6(i); }
    else if i < 0x80 { RowGenerated7(i); }
    else if i < 0x90 { RowGenerated8(i); }
    else if i < 0xa0 { RowGenerated9(i); }
    else if i < 0xb0 { RowGeneratedA(i); }
    else if i < 0xc0 { RowGeneratedB(i); }
    else if i < 0xd0 { RowGeneratedC(i); }
    else if i < 0xe0 { RowGeneratedD(i); }
    else if i < 0xf0 { RowGeneratedE(i); }
    else { RowGeneratedF(i); }
  }

  // ----- one byte ------------------------------------------------------------------------------

  function TopByte(x: bv64): bv64 {
    x >> 56
  }

  /** The entries of the table differ in their top bytes. */
  lemma TopBytesDistinct(i: bv8, j: bv8)
    requires TopByte(Generated(i)) == TopByte(Generated(j))
    ensures i == j
  {
  }

  type Table = bv8 -> bv64

  /** No two entries have the same top byte. */
  ghost predicate Distinct(tab: Table) {
    forall i, j :: TopByte(tab(i)) == TopByte(tab(j)) ==> i == j
  }

  lemma TableDistinct()
    ensures Distinct(Tab)
  {
    forall i: bv8, j: bv8 | TopByte(Tab(i)) == TopByte(Tab(j)) ensures i == j {
      TableGenerated(i);
      TableGenerated(j);
      TopBytesDistinct(i, j);
    }
  }

  /** The entry of the table that a byte selects. */
  function Index(crc: bv64, byte: bv8): bv8 {
    ((crc & 0xff) as bv8) ^ byte
  }

  function Mixed(entry: bv64, crc: bv64): bv64 {
    entry ^ (crc >> 8)
  }

  function Step(tab: Table, crc: bv64, byte: bv8): bv64 {
    Mixed(tab(Index(crc, byte)), crc)
  }

  /** The mask of the k most significant bytes. */
  function Mask(k: nat): bv64
    requires k <= 8
  {
    match k
    case 0 => 0
    case 1 => 0xff00000000000000
    case 2 => 0xffff000000000000
    case 3 => 0xffffff0000000000
    case 4 => 0xffffffff00000000
    case 5 => 0xffffffffff000000
    case 6 => 0xffffffffffff0000
    case 7 => 0xffffffffffffff00
    case _ => 0xffffffffffffffff
  }

  predicate AgreeUnder(c: bv64, d: bv64, mask: bv64) {
    (c ^ d) & mask == 0
  }

  /** Two states agree in their k most significant bytes. */
  predicate Agree(c: bv64, d: bv64, k: nat)
    requires k <= 8
  {
    AgreeUnder(c, d, Mask(k))
  }

  /** m is the mask of one byte more than n, which is not the mask of all bytes. */
  predicate OneByteMore(m: bv64, n: bv64) {
    m == 0xff00000000000000 | (n >> 8) && n & 0xff == 0
  }

  lemma MaskShift(k: nat)
    requires 0 < k <= 8
    ensures OneByteMore(Mask(k), Mask(k - 1))
  {
  }

  lemma TopAgrees(t: bv64, u: bv64, c: bv64, d: bv64, m: bv64, n: bv64)
    requires OneByteMore(m, n) && AgreeUnder(Mixed(t, c), Mixed(u, d), m)
    ensures TopByte(t) == TopByte(u)
  {
  }

  lemma RestAgrees(t: bv64, c: bv64, d: bv64, m: bv64, n: bv64)
    requires OneByteMore(m, n) && AgreeUnder(Mixed(t, c), Mixed(t, d), m)
    ensures AgreeUnder(c, d, n)
  {
  }

  /** States that agree in k bytes after a step used the same entry of the table, and agreed in
      k - 1 bytes before it. */
  lemma StepBack(tab: Table, c: bv64, a: bv8, d: bv64, b: bv8, k: nat)
    requires Distinct(tab) && 0 < k <= 8 && Agree(Step(tab, c, a), Step(tab, d, b), k)
    ensures Index(c, a) == Index(d, b) && Agree(c, d, k - 1)
  {
    MaskShift(k);
    StepBackMasked(tab, c, Index(c, a), d, Index(d, b), Mask(k), Mask(k - 1));
  }

  lemma StepBackMasked(tab: Table, c: bv64, i: bv8, d: bv64, j: bv8, m: bv64, n: bv64)
    requires Distinct(tab) && OneByteMore(m, n) && AgreeUnder(Mixed(tab(i), c), Mixed(tab(j), d), m)
    ensures i == j && AgreeUnder(c, d, n)
  {
    TopAgrees(tab(i), tab(j), c, d, m, n);
    RestAgrees(tab(i), c, d, m, n);
  }

  lemma SameIndex(c: bv64, a: bv8, b: bv8)
    requires Index(c, a) == Index(c, b)
    ensures a == b
  {
  }

  /** From equal states, the bytes were the same. */
  lemma SameByte(tab: Table, c: bv64, a: bv8, d: bv64, b: bv8, k: nat)
    requires Distinct(tab) && 0 < k <= 8 && Agree(Step(tab, c, a), Step(tab, d, b), k)
    ensures Agree(c, d, k - 1) && (c == d ==> a == b)
  {
    StepBack(tab, c, a, d, b, k);
    if c == d { SameIndex(c, a, b); }
  }

  lemma XorZero(c: bv64, d: bv64, ones: bv64)
    requires ones == 0xffffffffffffffff
    ensures c == d ==> (c ^ d) & ones == 0
    ensures (c ^ d) & ones == 0 ==> c == d
  {
  }

  lemma AgreeAll(c: bv64, d: bv64)
    ensures Agree(c, d, 8) <==> c == d
  {
    XorZero(c, d, Mask(8));
  }

  lemma SevenBytesAndIndex(c: bv64, d: bv64, b: bv8)
    requires (c ^ d) & 0xffffffffffffff00 == 0 && Index(c, b) == Index(d, b)
    ensures c == d
  {
  }

  /** For a fixed byte the step is injective in the state. */
  lemma StepInjective(tab: Table, c: bv64, d: bv64, b: bv8)
    requires Distinct(tab) && Step(tab, c, b) == Step(tab, d, b)
    ensures c == d
  {
    AgreeAll(Step(tab, c, b), Step(tab, d, b));
    StepBack(tab, c, b, d, b, 8);
    SevenBytesAndIndex(c, d, b);
  }

  // ----- strings ------------------------------------------------------------------------------

  function Crc(tab: Table, crc: bv64, s: seq<bv8>): bv64
    decreases |s|
  {
    if s == [] then crc else Step(tab, Crc(tab, crc, s[..|s| - 1]), s[|s| - 1])
  }

  method NextCrc(tab: Table, crc: bv64, byte: bv8) returns (r: bv64)
    ensures r == Step(tab, crc, byte)
  {
    r := tab(((crc & 0xff) as bv8) ^ byte) ^ (crc >> 8);
  }

  lemma CrcSnoc(tab: Table, crc: bv64, s: seq<bv8>, j: nat)
    requires j < |s|
    ensures Crc(tab, crc, s[..j + 1]) == Step(tab, Crc(tab, crc, s[..j]), s[j])
  {
    assert s[..j + 1][..j] == s[..j];
  }

  /** crc64. */
  method ComputeCrc(tab: Table, crc0: bv64, s: seq<bv8>) returns (crc: bv64)
    ensures crc == Crc(tab, crc0, s)
  {
    crc := crc0;
    var j := 0;
    while j < |s|
      invariant j <= |s| && crc == Crc(tab, crc0, s[..j])
    {
      CrcSnoc(tab, crc0, s, j);
      crc := NextCrc(tab, crc, s[j]);
      j := j + 1;
    }
    assert s[..j] == s;
  }

  lemma {:induction false} CrcConcat(tab: Table, crc: bv64, s: seq<bv8>, t: seq<bv8>)
    ensures Crc(tab, crc, s + t) == Crc(tab, Crc(tab, crc, s), t)
    decreases |t|
  {
    if t == [] {
      assert s + t == s;
    } else {
      var init := t[..|t| - 1];
      assert (s + t)[..|s + t| - 1] == s + init;
      CrcConcat(tab, crc, s, init);
    }
  }

  /** Different states stay different whatever follows. */
  lemma {:induction false} CrcInjective(tab: Table, c: bv64, d: bv64, t: seq<bv8>)
    requires Distinct(tab) && Crc(tab, c, t) == Crc(tab, d, t)
    ensures c == d
    decreases |t|
  {
    if t != [] {
      var init := t[..|t| - 1];
      StepInjective(tab, Crc(tab, c, init), Crc(tab, d, init), t[|t| - 1]);
      CrcInjective(tab, c, d, init);
    }
  }

  /** From one state, two strings of at most eight bytes that leave states agreeing in as many
      of their top bytes are the same. */
  lemma {:induction false} BurstDetermined(tab: Table, crc: bv64, a: seq<bv8>, b: seq<bv8>)
    requires Distinct(tab) && |a| == |b| <= 8 && Agree(Crc(tab, crc, a), Crc(tab, crc, b), |a|)
    ensures a == b
    decreases |a|
  {
    if a != [] {
      var n := |a| - 1;
      var c, d := Crc(tab, crc, a[..n]), Crc(tab, crc, b[..n]);
      SameByte(tab, c, a[n], d, b[n], n + 1);
      BurstDetermined(tab, crc, a[..n], b[..n]);
      assert a == a[..n] + [a[n]] && b == b[..n] + [b[n]];
    }
  }

  // ----- the check value -------------------------------------------------------------------------

  lemma CrcMore(s: seq<bv8>, b: bv8, c: bv64, i: bv8, entry: bv64, d: bv64)
    requires Crc(Tab, 0, s) == c && Index(c, b) == i && Tab(i) == entry && Mixed(entry, c) == d
    ensures Crc(Tab, 0, s + [b]) == d
  {
    assert (s + [b])[..|s + [b]| - 1] == s;
  }

  /** Three of the entries that the check string selects. */
  lemma Entry3B(i: bv8)
    requires i == 0x3b
    ensures Tab(i) == 0xa3597ca0a188d57d
  {
  }

  lemma Entry7D(i: bv8)
    requires i == 0x7d
    ensures Tab(i) == 0x49aba2fe23cc5c6f
  {
  }

  lemma EntryFB(i: bv8)
    requires i == 0xfb
    ensures Tab(i) == 0xe98f353477ad31a7
  {
    assert Tab(i) == RowF(i);
  }

  /** The first bytes of the check string. */
  lemma CheckBegins() returns (s: seq<bv8>)
    ensures s == [0x31, 0x32, 0x33, 0x34, 0x35] && Crc(Tab, 0, s) == 0xf0758513239c7e0d
  {
    s := [];
    CrcMore(s, 0x31, 0x0000000000000000, 0x31, 0xfdc17184a9f739fa, 0xfdc17184a9f739fa);
    s := s + [0x31];
    CrcMore(s, 0x32, 0xfdc17184a9f739fa, 0xc8, 0xe1fea520be311aaf, 0xe10364513a98ed96);
    s := s + [0x32];
    CrcMore(s, 0x33, 0xe10364513a98ed96, 0xa5, 0xd55df8e515432941, 0xd5bcfb814479b1ac);
    s := s + [0x33];
    CrcMore(s, 0x34, 0xd5bcfb814479b1ac, 0x98, 0x438c80a64ce15841, 0x43593c5dcda521f0);
    s := s + [0x34];
    CrcMore(s, 0x35, 0x43593c5dcda521f0, 0xc5, 0xf036dc2f7e51db2c, 0xf0758513239c7e0d);
    s := s + [0x35];
  }

  lemma CheckSix() returns (s: seq<bv8>)
    ensures s == [0x31, 0x32, 0x33, 0x34, 0x35, 0x36] && Crc(Tab, 0, s) == 0xa3a90925b2ab4903
  {
    s := CheckBegins();
    Entry3B(0x3b);
    CrcMore(s, 0x36, 0xf0758513239c7e0d, 0x3b, 0xa3597ca0a188d57d, 0xa3a90925b2ab4903);
    s := s + [0x36];
  }

  lemma CheckSeven() returns (s: seq<bv8>)
    ensures s == [0x31, 0x32, 0x33, 0x34, 0x35, 0x36, 0x37] && Crc(Tab, 0, s) == 0x47824d362431ad45
  {
    s := CheckSix();
    CrcMore(s, 0x37, 0xa3a90925b2ab4903, 0x34, 0x4721e43f0183060c, 0x47824d362431ad45);
    s := s + [0x37];
  }

  lemma CheckEight() returns (s: seq<bv8>)
    ensures s == [0x31, 0x32, 0x33, 0x34, 0x35, 0x36, 0x37, 0x38] && Crc(Tab, 0, s) == 0x49ec20b315e86dc2
  {
    s := CheckSeven();
    Entry7D(0x7d);
    CrcMore(s, 0x38, 0x47824d362431ad45, 0x7d, 0x49aba2fe23cc5c6f, 0x49ec20b315e86dc2);
    s := s + [0x38];
  }

  /** The checksum of "123456789" is the one that the specification of the variant gives. */
  lemma CheckValue() returns (s: seq<bv8>)
    ensures s == [0x31, 0x32, 0x33, 0x34, 0x35, 0x36, 0x37, 0x38, 0x39] && Crc(Tab, 0, s) == 0xe9c6d914c4b8d9ca
  {
    s := CheckEight();
    EntryFB(0xfb);
    CrcMore(s, 0x39, 0x49ec20b315e86dc2, 0xfb, 0xe98f353477ad31a7, 0xe9c6d914c4b8d9ca);
    s := s + [0x39];
  }
}
