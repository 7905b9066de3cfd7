/** A Pocklington certificate that 2^255 - 19 is prime; written by certificate.py. Each link
    proves one number prime from a prime factor of its predecessor, listing the powers of 2
    that Pocklington.Criterion asks for, one base-4 digit of the exponent per line. */
module Prime25519 {
  import opened ModArith
  import opened Primes
  import opened Pocklington

  const P: nat := 0x7fffffffffffffffffffffffffffffffffffffffffffffffffffffffffffffed

  lemma IsPrime991()
    ensures IsPrime(991)
  {
    assert NoFactorTo(991, 3);
    assert NoFactorTo(991, 5);
    assert NoFactorTo(991, 7);
    assert NoFactorTo(991, 9);
    assert NoFactorTo(991, 11);
    assert NoFactorTo(991, 13);
    assert NoFactorTo(991, 15);
    assert NoFactorTo(991, 17);
    assert NoFactorTo(991, 19);
    assert NoFactorTo(991, 21);
    assert NoFactorTo(991, 23);
    assert NoFactorTo(991, 25);
    assert NoFactorTo(991, 27);
    assert NoFactorTo(991, 29);
    assert NoFactorTo(991, 31);
    TrialDivision(991, 31);
  }

  ghost predicate Quad8574133(x: int, t: int, y: int) {
    (t == 1 || t == 2 || t == 4 || t == 8) && (x * x) * (x * x) * t % 0x82d4b5 == y
  }

  lemma Digits8574133()
    ensures forall e: nat, x, t, y {:trigger At(0x82d4b5, e, x), Quad8574133(x, t, y)} ::
              At(0x82d4b5, e, x) && Quad8574133(x, t, y) ==> At(0x82d4b5, 4 * e + DigitOf(t), y)
  {
    forall e: nat, x, t, y | At(0x82d4b5, e, x) && Quad8574133(x, t, y)
      ensures At(0x82d4b5, 4 * e + DigitOf(t), y)
    {
      OneDigit(0x82d4b5, e, x, t, y);
    }
  }

  lemma Power8574133_0_Residues()
    ensures Quad8574133(0x1, 4, 0x4)
    ensures Quad8574133(0x4, 1, 0x100)
    ensures Quad8574133(0x100, 1, 0x788e7c)
    ensures Quad8574133(0x788e7c, 4, 0x3d883d)
    ensures Quad8574133(0x3d883d, 8, 0x2d9b99)
    ensures Quad8574133(0x2d9b99, 2, 0x52cdb8)
    ensures Quad8574133(0x52cdb8, 2, 0x53c4bf)
    ensures Quad8574133(0x53c4bf, 1, 0xc2532)
    ensures Quad8574133(0xc2532, 4, 0x1bca4e)
    ensures Quad8574133(0x1bca4e, 8, 0x16a553)
    ensures Quad8574133(0x16a553, 2, 0x5f2f47)
    ensures Quad8574133(0x5f2f47, 1, 0x1)
  {}

  lemma Power8574133_0()
    ensures At(0x82d4b5, 0x82d4b4, 0x1)
  {
    Start(0x82d4b5);
    Power8574133_0_Residues();
    Digits8574133();
  }

  lemma Root8574133_0_Residues()
    ensures Quad8574133(0x1, 4, 0x4)
    ensures Quad8574133(0x4, 1, 0x100)
    ensures Quad8574133(0x100, 2, 0x6e4843)
    ensures Quad8574133(0x6e4843, 8, 0x69105)
    ensures Quad8574133(0x69105, 1, 0x6ff309)
    ensures Quad8574133(0x6ff309, 8, 0x1108c)
    ensures Quad8574133(0x1108c, 1, 0x346cd1)
  {}

  lemma Root8574133_0()
    ensures At(0x82d4b5, 0x21cc, 0x346cd1)
  {
    Start(0x82d4b5);
    Root8574133_0_Residues();
    Digits8574133();
  }

  lemma IsPrime8574133()
    ensures IsPrime(0x82d4b5)
  {
    IsPrime991();
    Power8574133_0();
    Root8574133_0();
    CongIntro(0xf79eb * (0x346cd1 - 1), 1, 0x82d4b5, 0x63393);
    Criterion(0x82d4b5, 0x3df, 0x21cc, 0x346cd1, 0xf79eb);
  }

  ghost predicate QuadQ3(x: int, t: int, y: int) {
    (t == 1 || t == 2 || t == 4 || t == 8) && (x * x) * (x * x) * t % 0x6d1cafa129d0b == y
  }

  lemma DigitsQ3()
    ensures forall e: nat, x, t, y {:trigger At(0x6d1cafa129d0b, e, x), QuadQ3(x, t, y)} ::
              At(0x6d1cafa129d0b, e, x) && QuadQ3(x, t, y) ==> At(0x6d1cafa129d0b, 4 * e + DigitOf(t), y)
  {
    forall e: nat, x, t, y | At(0x6d1cafa129d0b, e, x) && QuadQ3(x, t, y)
      ensures At(0x6d1cafa129d0b, 4 * e + DigitOf(t), y)
    {
      OneDigit(0x6d1cafa129d0b, e, x, t, y);
    }
  }

  lemma PowerQ3_0_Residues()
    ensures QuadQ3(0x1, 2, 0x2)
    ensures QuadQ3(0x2, 4, 0x40)
    ensures QuadQ3(0x40, 8, 0x8000000)
    ensures QuadQ3(0x8000000, 2, 0x295b2fbcd42f4)
    ensures QuadQ3(0x295b2fbcd42f4, 1, 0x6b0a0954e7b6e)
    ensures QuadQ3(0x6b0a0954e7b6e, 2, 0x3b98a4bf53795)
    ensures QuadQ3(0x3b98a4bf53795, 8, 0x4894d4d314935)
    ensures QuadQ3(0x4894d4d314935, 1, 0x8d138ebee13d)
    ensures QuadQ3(0x8d138ebee13d, 4, 0x4c09b770744d1)
    ensures QuadQ3(0x4c09b770744d1, 4, 0x5b3ea75e30cf3)
    ensures QuadQ3(0x5b3ea75e30cf3, 8, 0x4630268a12c4f)
    ensures QuadQ3(0x4630268a12c4f, 8, 0x25bb03d69c925)
    ensures QuadQ3(0x25bb03d69c925, 4, 0x2127135d49b56)
    ensures QuadQ3(0x2127135d49b56, 4, 0x4938d0da891e2)
    ensures QuadQ3(0x4938d0da891e2, 1, 0x5997b1847406a)
    ensures QuadQ3(0x5997b1847406a, 2, 0x1b30a8554d7c5)
  {}

  lemma PowerQ3_0()
    ensures At(0x6d1cafa129d0b, 0x6d1cafa1, 0x1b30a8554d7c5)
  {
    Start(0x6d1cafa129d0b);
    PowerQ3_0_Residues();
    DigitsQ3();
  }

  lemma PowerQ3_1_Residues()
    ensures QuadQ3(0x1b30a8554d7c5, 1, 0x4a2d12b335b6c)
    ensures QuadQ3(0x4a2d12b335b6c, 4, 0x47ad71b73d6a2)
    ensures QuadQ3(0x47ad71b73d6a2, 4, 0x6664fbe0bf9d5)
    ensures QuadQ3(0x6664fbe0bf9d5, 2, 0x52dd302e14596)
    ensures QuadQ3(0x52dd302e14596, 8, 0x37c19492ff0fd)
    ensures QuadQ3(0x37c19492ff0fd, 2, 0x5dfefa9462cb3)
    ensures QuadQ3(0x5dfefa9462cb3, 1, 0x395bbb7e480be)
    ensures QuadQ3(0x395bbb7e480be, 1, 0x553615ee67494)
    ensures QuadQ3(0x553615ee67494, 4, 0x2f143f8d4b441)
    ensures QuadQ3(0x2f143f8d4b441, 4, 0x1)
  {}

  lemma PowerQ3_1()
    ensures At(0x6d1cafa129d0b, 0x6d1cafa129d0a, 0x1)
  {
    PowerQ3_0();
    PowerQ3_1_Residues();
    DigitsQ3();
  }

  lemma RootQ3_0_Residues()
    ensures QuadQ3(0x1, 8, 0x8)
    ensures QuadQ3(0x8, 2, 0x2000)
    ensures QuadQ3(0x2000, 2, 0x4b8d417b58bd4)
    ensures QuadQ3(0x4b8d417b58bd4, 2, 0x5f18e786eab62)
    ensures QuadQ3(0x5f18e786eab62, 4, 0x404d9a606b02c)
    ensures QuadQ3(0x404d9a606b02c, 1, 0x19004c5c350df)
    ensures QuadQ3(0x19004c5c350df, 1, 0x508eccc5fc7a7)
    ensures QuadQ3(0x508eccc5fc7a7, 1, 0x4eb4d9d00b27c)
    ensures QuadQ3(0x4eb4d9d00b27c, 4, 0x2eb989126ce8e)
    ensures QuadQ3(0x2eb989126ce8e, 2, 0x5d322c8ac0852)
    ensures QuadQ3(0x5d322c8ac0852, 1, 0xfeb816ba61af)
    ensures QuadQ3(0xfeb816ba61af, 4, 0x259cb28ce652d)
    ensures QuadQ3(0x259cb28ce652d, 1, 0x675002e71f67f)
    ensures QuadQ3(0x675002e71f67f, 4, 0x3c3ffdef7c0b1)
  {}

  lemma RootQ3_0()
    ensures At(0x6d1cafa129d0b, 0xd580922, 0x3c3ffdef7c0b1)
  {
    Start(0x6d1cafa129d0b);
    RootQ3_0_Residues();
    DigitsQ3();
  }

  lemma IsPrimeQ3()
    ensures IsPrime(0x6d1cafa129d0b)
  {
    IsPrime8574133();
    PowerQ3_1();
    RootQ3_0();
    CongIntro(0x495bef080ea35 * (0x3c3ffdef7c0b1 - 1), 1, 0x6d1cafa129d0b, 0x2881fc4256cad);
    Criterion(0x6d1cafa129d0b, 0x82d4b5, 0xd580922, 0x3c3ffdef7c0b1, 0x495bef080ea35);
  }

  ghost predicate QuadQ2(x: int, t: int, y: int) {
    (t == 1 || t == 2 || t == 4 || t == 8) && (x * x) * (x * x) * t % 0xe87c2a477b815a1793787395b23e1 == y
  }

  lemma DigitsQ2()
    ensures forall e: nat, x, t, y {:trigger At(0xe87c2a477b815a1793787395b23e1, e, x), QuadQ2(x, t, y)} ::
              At(0xe87c2a477b815a1793787395b23e1, e, x) && QuadQ2(x, t, y) ==> At(0xe87c2a477b815a1793787395b23e1, 4 * e + DigitOf(t), y)
  {
    forall e: nat, x, t, y | At(0xe87c2a477b815a1793787395b23e1, e, x) && QuadQ2(x, t, y)
      ensures At(0xe87c2a477b815a1793787395b23e1, 4 * e + DigitOf(t), y)
    {
      OneDigit(0xe87c2a477b815a1793787395b23e1, e, x, t, y);
    }
  }

  lemma PowerQ2_0_Residues()
    ensures QuadQ2(0x1, 8, 0x8)
    ensures QuadQ2(0x8, 4, 0x4000)
    ensures QuadQ2(0x4000, 4, 0x400000000000000)
    ensures QuadQ2(0x400000000000000, 1, 0x43d23144337fac8e78ce6b5d7963e)
    ensures QuadQ2(0x43d23144337fac8e78ce6b5d7963e, 2, 0xda8a8b727f97db6e192906cfc9882)
    ensures QuadQ2(0xda8a8b727f97db6e192906cfc9882, 8, 0x4e465d1398f8ac98fb97a7db9c86c)
    ensures QuadQ2(0x4e465d1398f8ac98fb97a7db9c86c, 8, 0x580df7aa761ad950fbd2e062a0997)
    ensures QuadQ2(0x580df7aa761ad950fbd2e062a0997, 1, 0x29d6007e421d38f42431d03a1c6d)
    ensures QuadQ2(0x29d6007e421d38f42431d03a1c6d, 1, 0xdfe62852199e6d7aee6e5bf7bb1ac)
    ensures QuadQ2(0xdfe62852199e6d7aee6e5bf7bb1ac, 4, 0x32155c7583c4648a4dc37fac6d68f)
    ensures QuadQ2(0x32155c7583c4648a4dc37fac6d68f, 4, 0x5597b8b2fc2f25a1d369e4dcf89a4)
    ensures QuadQ2(0x5597b8b2fc2f25a1d369e4dcf89a4, 4, 0x2f88732a7b070e053bddc2d908e49)
    ensures QuadQ2(0x2f88732a7b070e053bddc2d908e49, 2, 0x1ed4b0ae4ded911562df02473e9c7)
    ensures QuadQ2(0x1ed4b0ae4ded911562df02473e9c7, 1, 0x82d8cc0fe0415379eed770e1eec2)
    ensures QuadQ2(0x82d8cc0fe0415379eed770e1eec2, 2, 0xde5fe09867b56afd1f390bd45d469)
    ensures QuadQ2(0xde5fe09867b56afd1f390bd45d469, 8, 0x8d9f235dd765a4c762be121a67129)
  {}

  lemma PowerQ2_0()
    ensures At(0xe87c2a477b815a1793787395b23e1, 0xe87c2a47, 0x8d9f235dd765a4c762be121a67129)
  {
    Start(0xe87c2a477b815a1793787395b23e1);
    PowerQ2_0_Residues();
    DigitsQ2();
  }

  lemma PowerQ2_1_Residues()
    ensures QuadQ2(0x8d9f235dd765a4c762be121a67129, 2, 0xe01e3e4e379f68cc965a481654d52)
    ensures QuadQ2(0xe01e3e4e379f68cc965a481654d52, 8, 0x5b2aadd581ea00b4120643522a923)
    ensures QuadQ2(0x5b2aadd581ea00b4120643522a923, 4, 0x7eb47565b60472aa29b86ea1e37b9)
    ensures QuadQ2(0x7eb47565b60472aa29b86ea1e37b9, 8, 0x7c25ff24c5f58f4a4a868c6448ebb)
    ensures QuadQ2(0x7c25ff24c5f58f4a4a868c6448ebb, 4, 0x3565832936bd81385c75a5a0372e3)
    ensures QuadQ2(0x3565832936bd81385c75a5a0372e3, 1, 0x3820cf908b1e082ce9669bb0d9269)
    ensures QuadQ2(0x3820cf908b1e082ce9669bb0d9269, 1, 0x4d5440b90ddd85011d7d6a9c81c4)
    ensures QuadQ2(0x4d5440b90ddd85011d7d6a9c81c4, 2, 0x12675193b8e3aa67ca606079b5b9)
    ensures QuadQ2(0x12675193b8e3aa67ca606079b5b9, 2, 0x796c0be82fc03c2e6d426e67d3686)
    ensures QuadQ2(0x796c0be82fc03c2e6d426e67d3686, 2, 0x8360361021940b1a18fed6e934acc)
    ensures QuadQ2(0x8360361021940b1a18fed6e934acc, 4, 0xb9300a73b6bc293f15f7727c94fab)
    ensures QuadQ2(0xb9300a73b6bc293f15f7727c94fab, 4, 0x9fe38170fcfcf1a4bc61787c310b3)
    ensures QuadQ2(0x9fe38170fcfcf1a4bc61787c310b3, 1, 0x8c4534aa8fdf0ca37a4e67ae62960)
    ensures QuadQ2(0x8c4534aa8fdf0ca37a4e67ae62960, 2, 0xa753e33b0ec8b866b117f114cc46a)
    ensures QuadQ2(0xa753e33b0ec8b866b117f114cc46a, 2, 0xc4fb20d734cef264a458b1d6b2739)
    ensures QuadQ2(0xc4fb20d734cef264a458b1d6b2739, 8, 0x4957bcad115692dd2ca4cb7cc3da4)
  {}

  lemma PowerQ2_1()
    ensures At(0xe87c2a477b815a1793787395b23e1, 0xe87c2a477b815a17, 0x4957bcad115692dd2ca4cb7cc3da4)
  {
    PowerQ2_0();
    PowerQ2_1_Residues();
    DigitsQ2();
  }

  lemma PowerQ2_2_Residues()
    ensures QuadQ2(0x4957bcad115692dd2ca4cb7cc3da4, 4, 0x557e7f90af8cc4b374e913ff91cb3)
    ensures QuadQ2(0x557e7f90af8cc4b374e913ff91cb3, 2, 0xe438e2afa6634a4072d7558321a2f)
    ensures QuadQ2(0xe438e2afa6634a4072d7558321a2f, 1, 0x39a79b4311c9c10fa3ff341c0fa4c)
    ensures QuadQ2(0x39a79b4311c9c10fa3ff341c0fa4c, 8, 0x81cccac7265355bc70a81cca07aec)
    ensures QuadQ2(0x81cccac7265355bc70a81cca07aec, 2, 0x84b47125c5c2a2433f622103febc6)
    ensures QuadQ2(0x84b47125c5c2a2433f622103febc6, 8, 0xb73ecd5214b67c68dfcaac7603980)
    ensures QuadQ2(0xb73ecd5214b67c68dfcaac7603980, 4, 0x4728c0a95a2f1b11291c432d0a8c5)
    ensures QuadQ2(0x4728c0a95a2f1b11291c432d0a8c5, 1, 0x4363b1db3b7e2b991cd350c32998a)
    ensures QuadQ2(0x4363b1db3b7e2b991cd350c32998a, 2, 0x58202606df3617def1cabcfc828a4)
    ensures QuadQ2(0x58202606df3617def1cabcfc828a4, 8, 0x84b158b54a9e4de09d40bedbd0b34)
    ensures QuadQ2(0x84b158b54a9e4de09d40bedbd0b34, 1, 0xd859ac1eb75e5812cf841d5384151)
    ensures QuadQ2(0xd859ac1eb75e5812cf841d5384151, 8, 0x359e37ebc0578d1a9d9079961d170)
    ensures QuadQ2(0x359e37ebc0578d1a9d9079961d170, 4, 0xd7546c9bbe79c90c3fdddb25a6014)
    ensures QuadQ2(0xd7546c9bbe79c90c3fdddb25a6014, 2, 0x974304a17238fa2298925c8f365dc)
    ensures QuadQ2(0x974304a17238fa2298925c8f365dc, 2, 0x860fd729016a6e3205180d8b3e4a2)
    ensures QuadQ2(0x860fd729016a6e3205180d8b3e4a2, 2, 0x4723e1db5a74ca1b46f23c6a464d2)
  {}

  lemma PowerQ2_2()
    ensures At(0xe87c2a477b815a1793787395b23e1, 0xe87c2a477b815a1793787395, 0x4723e1db5a74ca1b46f23c6a464d2)
  {
    PowerQ2_1();
    PowerQ2_2_Residues();
    DigitsQ2();
  }

  lemma PowerQ2_3_Residues()
    ensures QuadQ2(0x4723e1db5a74ca1b46f23c6a464d2, 4, 0x915c506193df9ae539a47c0f499d0)
    ensures QuadQ2(0x915c506193df9ae539a47c0f499d0, 8, 0x9095bf6278a55b489c968fb6a8650)
    ensures QuadQ2(0x9095bf6278a55b489c968fb6a8650, 1, 0x742a8690b1509e2852d3539dc99ff)
    ensures QuadQ2(0x742a8690b1509e2852d3539dc99ff, 4, 0x5591710bd8abd44b8633f13de7d97)
    ensures QuadQ2(0x5591710bd8abd44b8633f13de7d97, 1, 0xba45e6c2e52db5b6515804b2faa3)
    ensures QuadQ2(0xba45e6c2e52db5b6515804b2faa3, 8, 0x9d12f8fa228178a3091169a144283)
    ensures QuadQ2(0x9d12f8fa228178a3091169a144283, 8, 0xcbf575a5ed4b0585efc9fc232fec9)
    ensures QuadQ2(0xcbf575a5ed4b0585efc9fc232fec9, 4, 0xd1b2ad899f6e641aa1ede251fa5de)
    ensures QuadQ2(0xd1b2ad899f6e641aa1ede251fa5de, 1, 0x1)
    ensures QuadQ2(0x1, 1, 0x1)
  {}

  lemma PowerQ2_3()
    ensures At(0xe87c2a477b815a1793787395b23e1, 0xe87c2a477b815a1793787395b23e0, 0x1)
  {
    PowerQ2_2();
    PowerQ2_3_Residues();
    DigitsQ2();
  }

  lemma RootQ2_0_Residues()
    ensures QuadQ2(0x1, 4, 0x4)
    ensures QuadQ2(0x4, 1, 0x100)
    ensures QuadQ2(0x100, 4, 0x400000000)
    ensures QuadQ2(0x400000000, 1, 0x72c84b3dffef4313c76ee90369f15)
    ensures QuadQ2(0x72c84b3dffef4313c76ee90369f15, 2, 0x4726c4d320000000000)
    ensures QuadQ2(0x4726c4d320000000000, 2, 0xa868cd4e3f37a9c111b58cd538fa6)
    ensures QuadQ2(0xa868cd4e3f37a9c111b58cd538fa6, 8, 0x9e10535caff837d7c5291aa75141e)
    ensures QuadQ2(0x9e10535caff837d7c5291aa75141e, 2, 0x65129e2b8099eaef71586722e7190)
    ensures QuadQ2(0x65129e2b8099eaef71586722e7190, 2, 0xc5a158f0a198c844e78c5278e7e52)
    ensures QuadQ2(0xc5a158f0a198c844e78c5278e7e52, 4, 0xa27df394215b46f6c316c3cc1aecd)
    ensures QuadQ2(0xa27df394215b46f6c316c3cc1aecd, 1, 0x1500cbd7bb1659c25e95a8d280a0d)
    ensures QuadQ2(0x1500cbd7bb1659c25e95a8d280a0d, 4, 0x70393e8f73104ca3641dc4c0d9ecf)
    ensures QuadQ2(0x70393e8f73104ca3641dc4c0d9ecf, 1, 0xb2171325b2f1c1a49ecc867d5f24f)
    ensures QuadQ2(0xb2171325b2f1c1a49ecc867d5f24f, 4, 0xbc4e928b1eee0a099e939a6915cba)
    ensures QuadQ2(0xbc4e928b1eee0a099e939a6915cba, 8, 0x28070f0ce68ad04dceeba5b7628b1)
    ensures QuadQ2(0x28070f0ce68ad04dceeba5b7628b1, 2, 0x7fd4bd56803e8342be3d722fe61eb)
  {}

  lemma RootQ2_0()
    ensures At(0xe87c2a477b815a1793787395b23e1, 0x885d622d, 0x7fd4bd56803e8342be3d722fe61eb)
  {
    Start(0xe87c2a477b815a1793787395b23e1);
    RootQ2_0_Residues();
    DigitsQ2();
  }

  lemma RootQ2_1_Residues()
    ensures QuadQ2(0x7fd4bd56803e8342be3d722fe61eb, 4, 0x194edff57d80e5c9761410876add)
    ensures QuadQ2(0x194edff57d80e5c9761410876add, 4, 0x9655fe00e0ab5d432b07544c38a1e)
    ensures QuadQ2(0x9655fe00e0ab5d432b07544c38a1e, 8, 0x695d4a8e9b68c082ac4a078aef045)
    ensures QuadQ2(0x695d4a8e9b68c082ac4a078aef045, 2, 0xe4e7c5fff7f1a4e4a7840821d6d3f)
    ensures QuadQ2(0xe4e7c5fff7f1a4e4a7840821d6d3f, 1, 0xb2575d2efa93bf6464d7cad7b9ef9)
    ensures QuadQ2(0xb2575d2efa93bf6464d7cad7b9ef9, 8, 0x2716ede1f0e14a2cd2598ee19a7a7)
    ensures QuadQ2(0x2716ede1f0e14a2cd2598ee19a7a7, 8, 0x7783d69e20ee3bf78a6d9f9b8adfd)
    ensures QuadQ2(0x7783d69e20ee3bf78a6d9f9b8adfd, 2, 0x77cd05566e32877c6fb20cfb413b0)
    ensures QuadQ2(0x77cd05566e32877c6fb20cfb413b0, 8, 0xdf4dd6133cbda34c81eefdf0eff1d)
    ensures QuadQ2(0xdf4dd6133cbda34c81eefdf0eff1d, 1, 0x86959b1bdaff2d9081466493d02d3)
    ensures QuadQ2(0x86959b1bdaff2d9081466493d02d3, 2, 0x3a599df33217093dc572ca5aab5a7)
    ensures QuadQ2(0x3a599df33217093dc572ca5aab5a7, 2, 0x808952037acc622251ea44cf13b7a)
    ensures QuadQ2(0x808952037acc622251ea44cf13b7a, 8, 0x2a989a902fb9217d482069bed88b1)
    ensures QuadQ2(0x2a989a902fb9217d482069bed88b1, 4, 0x5d1f3bbb944c1e87f26a0cc7e9fb)
    ensures QuadQ2(0x5d1f3bbb944c1e87f26a0cc7e9fb, 4, 0x89b84ebdbb5f3ab59c3b0ef8b7512)
    ensures QuadQ2(0x89b84ebdbb5f3ab59c3b0ef8b7512, 1, 0xcacb8bb8eee5d766f99fca73955b2)
  {}

  lemma RootQ2_1()
    ensures At(0xe87c2a477b815a1793787395b23e1, 0x885d622dad3dc5e8, 0xcacb8bb8eee5d766f99fca73955b2)
  {
    RootQ2_0();
    RootQ2_1_Residues();
    DigitsQ2();
  }

  lemma RootQ2_2_Residues()
    ensures QuadQ2(0xcacb8bb8eee5d766f99fca73955b2, 1, 0xaedd80ab27e8de3ca5f2fb22d5403)
  {}

  lemma RootQ2_2()
    ensures At(0xe87c2a477b815a1793787395b23e1, 0x2217588b6b4f717a0, 0xaedd80ab27e8de3ca5f2fb22d5403)
  {
    RootQ2_1();
    RootQ2_2_Residues();
    DigitsQ2();
  }

  lemma IsPrimeQ2()
    ensures IsPrime(0xe87c2a477b815a1793787395b23e1)
  {
    IsPrimeQ3();
    PowerQ2_3();
    RootQ2_2();
    CongIntro(0xe5e342b4c0a3d507894bab5f20e8b * (0xaedd80ab27e8de3ca5f2fb22d5403 - 1), 1, 0xe87c2a477b815a1793787395b23e1, 0xace963d3b072b0ebd18629ad3bbb5);
    Criterion(0xe87c2a477b815a1793787395b23e1, 0x6d1cafa129d0b, 0x2217588b6b4f717a0, 0xaedd80ab27e8de3ca5f2fb22d5403, 0xe5e342b4c0a3d507894bab5f20e8b);
  }

  ghost predicate QuadQ1(x: int, t: int, y: int) {
    (t == 1 || t == 2 || t == 4 || t == 8) && (x * x) * (x * x) * t % 0xabaf8c6b094fd0f32c2ccabab864dbecd99144679c1adf804898fb2042b == y
  }

  lemma DigitsQ1()
    ensures forall e: nat, x, t, y {:trigger At(0xabaf8c6b094fd0f32c2ccabab864dbecd99144679c1adf804898fb2042b, e, x), QuadQ1(x, t, y)} ::
              At(0xabaf8c6b094fd0f32c2ccabab864dbecd99144679c1adf804898fb2042b, e, x) && QuadQ1(x, t, y) ==> At(0xabaf8c6b094fd0f32c2ccabab864dbecd99144679c1adf804898fb2042b, 4 * e + DigitOf(t), y)
  {
    forall e: nat, x, t, y | At(0xabaf8c6b094fd0f32c2ccabab864dbecd99144679c1adf804898fb2042b, e, x) && QuadQ1(x, t, y)
      ensures At(0xabaf8c6b094fd0f32c2ccabab864dbecd99144679c1adf804898fb2042b, 4 * e + DigitOf(t), y)
    {
      OneDigit(0xabaf8c6b094fd0f32c2ccabab864dbecd99144679c1adf804898fb2042b, e, x, t, y);
    }
  }

  lemma PowerQ1_0_Residues()
    ensures QuadQ1(0x1, 4, 0x4)
    ensures QuadQ1(0x4, 4, 0x400)
    ensures QuadQ1(0x400, 4, 0x40000000000)
    ensures QuadQ1(0x40000000000, 8, 0x8000000000000000000000000000000000000000000)
    ensures QuadQ1(0x8000000000000000000000000000000000000000000, 4, 0x19000000000000000000000000000000000000000000000)
    ensures QuadQ1(0x19000000000000000000000000000000000000000000000, 4, 0x98456e9086f263a6c1b9b484a2e0d4f8f39f86bd12a2a67c503b3f5c9d1)
    ensures QuadQ1(0x98456e9086f263a6c1b9b484a2e0d4f8f39f86bd12a2a67c503b3f5c9d1, 8, 0xe596b7b0c643c7196d9ccd05d000000000000000000000000000)
    ensures QuadQ1(0xe596b7b0c643c7196d9ccd05d000000000000000000000000000, 8, 0x9b835587fb714e16c33dffe10c2ce8128aa3b40f8300ea357cea34bd258)
    ensures QuadQ1(0x9b835587fb714e16c33dffe10c2ce8128aa3b40f8300ea357cea34bd258, 4, 0x81c672b06a26432e3d04a60d0ef15a36d04343c50c557a26db4dae718bc)
    ensures QuadQ1(0x81c672b06a26432e3d04a60d0ef15a36d04343c50c557a26db4dae718bc, 1, 0x2cea123fa84e08972d63324bdcd04e2b49063d096ae927b3c5f848a77f)
    ensures QuadQ1(0x2cea123fa84e08972d63324bdcd04e2b49063d096ae927b3c5f848a77f, 8, 0x60b2124d52a40d816eb0efedee8db16672869fffe299c0ad4179cb2a613)
    ensures QuadQ1(0x60b2124d52a40d816eb0efedee8db16672869fffe299c0ad4179cb2a613, 1, 0x562a5f1e883e9fc3148961abf017c7aaefa69ae516d0f9d7f5f3fcf200c)
    ensures QuadQ1(0x562a5f1e883e9fc3148961abf017c7aaefa69ae516d0f9d7f5f3fcf200c, 2, 0x7364ddffbe191843b417caad54afb9ffad881980f1274f5b1d00b16fb5d)
    ensures QuadQ1(0x7364ddffbe191843b417caad54afb9ffad881980f1274f5b1d00b16fb5d, 4, 0x3ec2264a48efd2b4422960c37a01e4fde80185edb57987743243c80c2f8)
    ensures QuadQ1(0x3ec2264a48efd2b4422960c37a01e4fde80185edb57987743243c80c2f8, 4, 0x9d9f149e1cc39c9fd6cd6f47e967951d2d84b2bbfbd521e9c68e9f10beb)
    ensures QuadQ1(0x9d9f149e1cc39c9fd6cd6f47e967951d2d84b2bbfbd521e9c68e9f10beb, 8, 0x351a835a72217d5d8918847150669ba0de73657bc4d74b3ec295faa999d)
  {}

  lemma PowerQ1_0()
    ensures At(0xabaf8c6b094fd0f32c2ccabab864dbecd99144679c1adf804898fb2042b, 0xabaf8c6b, 0x351a835a72217d5d8918847150669ba0de73657bc4d74b3ec295faa999d)
  {
    Start(0xabaf8c6b094fd0f32c2ccabab864dbecd99144679c1adf804898fb2042b);
    PowerQ1_0_Residues();
    DigitsQ1();
  }

  lemma PowerQ1_1_Residues()
    ensures QuadQ1(0x351a835a72217d5d8918847150669ba0de73657bc4d74b3ec295faa999d, 1, 0x449ce8cc019d951501275b9d5081b29781bd69f85dfe8f57af96a84c925)
    ensures QuadQ1(0x449ce8cc019d951501275b9d5081b29781bd69f85dfe8f57af96a84c925, 1, 0x79203519a4ca212e7a0d1b2072633b530f8e503a88e6bec5b1dd39ad27b)
    ensures QuadQ1(0x79203519a4ca212e7a0d1b2072633b530f8e503a88e6bec5b1dd39ad27b, 4, 0x8deff6c509e8a8ef119cdf52dffe6aa53afee8e45bb13ec16503be289b9)
    ensures QuadQ1(0x8deff6c509e8a8ef119cdf52dffe6aa53afee8e45bb13ec16503be289b9, 2, 0x2efd2529648ab837e25eb7a061c2420f502146610e90ef16459473732c7)
    ensures QuadQ1(0x2efd2529648ab837e25eb7a061c2420f502146610e90ef16459473732c7, 2, 0x7dab27ffbccb889d596ca986502e21cf9ee895a46395b14501b90ec73c3)
    ensures QuadQ1(0x7dab27ffbccb889d596ca986502e21cf9ee895a46395b14501b90ec73c3, 1, 0x59d2010b98253ff30e16b758406df2547c3b31833f0e58bc0289e40fc43)
    ensures QuadQ1(0x59d2010b98253ff30e16b758406df2547c3b31833f0e58bc0289e40fc43, 8, 0x3c05c4ab8ced82b67a8a16db2eb23191aa59eecf1497304b435bb0ebc52)
    ensures QuadQ1(0x3c05c4ab8ced82b67a8a16db2eb23191aa59eecf1497304b435bb0ebc52, 8, 0x5e6babd012fad117dc595cc8fe9b217d27dc56a6d7c36937da433a96514)
    ensures QuadQ1(0x5e6babd012fad117dc595cc8fe9b217d27dc56a6d7c36937da433a96514, 8, 0x815d6e90edd477c8d7b3694f92f98fecb37b5826b76e50268e90dec14a2)
    ensures QuadQ1(0x815d6e90edd477c8d7b3694f92f98fecb37b5826b76e50268e90dec14a2, 2, 0x20d53d5e0de943b3b9f2c36c1cb11377651390a722daea1b40ef0df4e53)
    ensures QuadQ1(0x20d53d5e0de943b3b9f2c36c1cb11377651390a722daea1b40ef0df4e53, 1, 0xa904803cddd90bb7d10d18faf5eb612e255f93b3be9fa463b2d43ff20e7)
    ensures QuadQ1(0xa904803cddd90bb7d10d18faf5eb612e255f93b3be9fa463b2d43ff20e7, 1, 0xa0513e080d8cfc7ecc515dd9374f9694476a2d5508ffda0def104f5f513)
    ensures QuadQ1(0xa0513e080d8cfc7ecc515dd9374f9694476a2d5508ffda0def104f5f513, 8, 0x61a926057346e32e51fd0a8e951071f77e69c95bdb7aa1fc1760f519f23)
    ensures QuadQ1(0x61a926057346e32e51fd0a8e951071f77e69c95bdb7aa1fc1760f519f23, 8, 0x7f6fe1a85125c44031389d568ac3a069848624fada4db30fae31c608b78)
    ensures QuadQ1(0x7f6fe1a85125c44031389d568ac3a069848624fada4db30fae31c608b78, 1, 0x96a0a689ba1b3515efcdba8ef14678eb71730d0b7c2753af55fe82fe7cb)
    ensures QuadQ1(0x96a0a689ba1b3515efcdba8ef14678eb71730d0b7c2753af55fe82fe7cb, 8, 0x3da899419029c2340a6ce9ff5f93b91d1ee159a80250bef106629f259e4)
  {}

  lemma PowerQ1_1()
    ensures At(0xabaf8c6b094fd0f32c2ccabab864dbecd99144679c1adf804898fb2042b, 0xabaf8c6b094fd0f3, 0x3da899419029c2340a6ce9ff5f93b91d1ee159a80250bef106629f259e4)
  {
    PowerQ1_0();
    PowerQ1_1_Residues();
    DigitsQ1();
  }

  lemma PowerQ1_2_Residues()
    ensures QuadQ1(0x3da899419029c2340a6ce9ff5f93b91d1ee159a80250bef106629f259e4, 1, 0x3d43aa8d9051ec65110dda3234baac1c4b71bce03256fbd5aa84f208415)
    ensures QuadQ1(0x3d43aa8d9051ec65110dda3234baac1c4b71bce03256fbd5aa84f208415, 4, 0x22686b0570abdfef3c103bb09b77936bbb48c1dd46f4a1853a6ff5d1353)
    ensures QuadQ1(0x22686b0570abdfef3c103bb09b77936bbb48c1dd46f4a1853a6ff5d1353, 8, 0xab506b57951f408baebb03e320cbda88860d62baa0630f4c907da419070)
    ensures QuadQ1(0xab506b57951f408baebb03e320cbda88860d62baa0630f4c907da419070, 1, 0x1ad5bc52c9c6202d8c9f889d7abe9f887de863f254747185013e6b77865)
    ensures QuadQ1(0x1ad5bc52c9c6202d8c9f889d7abe9f887de863f254747185013e6b77865, 1, 0x2d9e504f0d5475a17d51d2b47f9f677c8b0317ae91e2550d66768447cef)
    ensures QuadQ1(0x2d9e504f0d5475a17d51d2b47f9f677c8b0317ae91e2550d66768447cef, 4, 0x9b14dccd12c5c9a0e0169e3d5a0026a0af8b89c18483f70f6cdab81b299)
    ensures QuadQ1(0x9b14dccd12c5c9a0e0169e3d5a0026a0af8b89c18483f70f6cdab81b299, 8, 0x93d67b8ddf01dc73cd48b6250f1a98f5cf22d3323f61a8650fb0e35eca3)
    ensures QuadQ1(0x93d67b8ddf01dc73cd48b6250f1a98f5cf22d3323f61a8650fb0e35eca3, 1, 0x628965681793a804c586568911b3b9c867ac376d4168aa8a74c6e34b44e)
    ensures QuadQ1(0x628965681793a804c586568911b3b9c867ac376d4168aa8a74c6e34b44e, 8, 0x280e7cf6b54e389861cfd4fe90172ba171c644c72c0f63251532cf93e09)
    ensures QuadQ1(0x280e7cf6b54e389861cfd4fe90172ba171c644c72c0f63251532cf93e09, 1, 0x8cff2ff1217e88ad997f2a2876471800813c29ad3f0b93e0e941777bb2e)
    ensures QuadQ1(0x8cff2ff1217e88ad997f2a2876471800813c29ad3f0b93e0e941777bb2e, 4, 0xa373eaa57498a41eabc9d11ae195bfc544cc515147b2da3a562ef6eb18)
    ensures QuadQ1(0xa373eaa57498a41eabc9d11ae195bfc544cc515147b2da3a562ef6eb18, 4, 0x77c594872a16a70a2f251349011c604f0c33ff02b9e6a8f6ae4f8832231)
    ensures QuadQ1(0x77c594872a16a70a2f251349011c604f0c33ff02b9e6a8f6ae4f8832231, 4, 0x1c987b606dbf452ba0bd3ae66140c4894940df9ff951e7105a772b52692)
    ensures QuadQ1(0x1c987b606dbf452ba0bd3ae66140c4894940df9ff951e7105a772b52692, 8, 0x9bc29e51e651aef1a4b6816369454cc635950936ac18b7edf7a2bd2a3d7)
    ensures QuadQ1(0x9bc29e51e651aef1a4b6816369454cc635950936ac18b7edf7a2bd2a3d7, 4, 0x4ec8eb7032881767be6b40f19c965b699e79e71bbbd9a65393330f1fac9)
    ensures QuadQ1(0x4ec8eb7032881767be6b40f19c965b699e79e71bbbd9a65393330f1fac9, 4, 0x6d643650bd8c4ca59e350262598eece25ae5183214734a8e2680a1ff0a4)
  {}

  lemma PowerQ1_2()
    ensures At(0xabaf8c6b094fd0f32c2ccabab864dbecd99144679c1adf804898fb2042b, 0xabaf8c6b094fd0f32c2ccaba, 0x6d643650bd8c4ca59e350262598eece25ae5183214734a8e2680a1ff0a4)
  {
    PowerQ1_1();
    PowerQ1_2_Residues();
    DigitsQ1();
  }

  lemma PowerQ1_3_Residues()
    ensures QuadQ1(0x6d643650bd8c4ca59e350262598eece25ae5183214734a8e2680a1ff0a4, 4, 0x6044e375f99998de29ec9b8b0faa15401ad9147e5b23470cdb093570aee)
    ensures QuadQ1(0x6044e375f99998de29ec9b8b0faa15401ad9147e5b23470cdb093570aee, 8, 0x4c95d4222535657fcd59126ea764bf17ee4536a226b1503ad0c8c6730c0)
    ensures QuadQ1(0x4c95d4222535657fcd59126ea764bf17ee4536a226b1503ad0c8c6730c0, 4, 0xf1f34a618e5ed2280fca0d205207c9e805c95e71b2560debf78985723a)
    ensures QuadQ1(0xf1f34a618e5ed2280fca0d205207c9e805c95e71b2560debf78985723a, 1, 0x89f496bcbf60ba7a275febd4bcc076ca8e4ac27cc543c5d071151cec8c)
    ensures QuadQ1(0x89f496bcbf60ba7a275febd4bcc076ca8e4ac27cc543c5d071151cec8c, 2, 0x3036c4c28d312b0fbb697d316c1026952d14424189008303b4ea0d53375)
    ensures QuadQ1(0x3036c4c28d312b0fbb697d316c1026952d14424189008303b4ea0d53375, 4, 0x665d13962bb0905ec90e17b62f455059d7bb0a97af871368b1d3851788f)
    ensures QuadQ1(0x665d13962bb0905ec90e17b62f455059d7bb0a97af871368b1d3851788f, 2, 0x9391cd4ad04d2a0d979fc3e4c3d5b7c5b794b2935f24863cc8fd5a1318e)
    ensures QuadQ1(0x9391cd4ad04d2a0d979fc3e4c3d5b7c5b794b2935f24863cc8fd5a1318e, 1, 0x276b1786417c82148e4ca9cb0f1275992dcfa4b9c8d06beb65af518520c)
    ensures QuadQ1(0x276b1786417c82148e4ca9cb0f1275992dcfa4b9c8d06beb65af518520c, 8, 0x5c1b8186cd207aa519a98b0a81e0192180cd90fe581611e7483505d25dc)
    ensures QuadQ1(0x5c1b8186cd207aa519a98b0a81e0192180cd90fe581611e7483505d25dc, 2, 0x1d1b9b0e1361200cedd51490da1190117ea2918e1770f42eebd188bafa4)
    ensures QuadQ1(0x1d1b9b0e1361200cedd51490da1190117ea2918e1770f42eebd188bafa4, 4, 0x3fb79ececdf82cae7a25a11ea8c36e03ed472f424516b378ce972d3122d)
    ensures QuadQ1(0x3fb79ececdf82cae7a25a11ea8c36e03ed472f424516b378ce972d3122d, 8, 0xa8f78592caf3bc358b141d31ba7ff9b3ec16ff810d69edfdb542edcbe74)
    ensures QuadQ1(0xa8f78592caf3bc358b141d31ba7ff9b3ec16ff810d69edfdb542edcbe74, 8, 0x8d8d913341d083ba2d748ab6b79b3b2a45dbafb3b67800f1efa1b742310)
    ensures QuadQ1(0x8d8d913341d083ba2d748ab6b79b3b2a45dbafb3b67800f1efa1b742310, 4, 0x65198fb2731d00e133983d7ef79d70fdcc957a4646f55e542a7e91157a7)
    ensures QuadQ1(0x65198fb2731d00e133983d7ef79d70fdcc957a4646f55e542a7e91157a7, 8, 0x9ad1d1716fa3e5d674d56e314360565dd8bc4cd12c2f73bbf41ada26a7)
    ensures QuadQ1(0x9ad1d1716fa3e5d674d56e314360565dd8bc4cd12c2f73bbf41ada26a7, 1, 0x99a025d1a4b6c3ee39e8efb735145b644f980163dcb26d220a080f9bba0)
  {}

  lemma PowerQ1_3()
    ensures At(0xabaf8c6b094fd0f32c2ccabab864dbecd99144679c1adf804898fb2042b, 0xabaf8c6b094fd0f32c2ccabab864dbec, 0x99a025d1a4b6c3ee39e8efb735145b644f980163dcb26d220a080f9bba0)
  {
    PowerQ1_2();
    PowerQ1_3_Residues();
    DigitsQ1();
  }

  lemma PowerQ1_4_Residues()
    ensures QuadQ1(0x99a025d1a4b6c3ee39e8efb735145b644f980163dcb26d220a080f9bba0, 8, 0x6fdf59adccd0c75fa98e355fbcfe96ce89eb006878eac804a83b2e4d85a)
    ensures QuadQ1(0x6fdf59adccd0c75fa98e355fbcfe96ce89eb006878eac804a83b2e4d85a, 2, 0x49ea3b118a8793dbf342aa72ed03a58a550277be065dc63ce27af175bb7)
    ensures QuadQ1(0x49ea3b118a8793dbf342aa72ed03a58a550277be065dc63ce27af175bb7, 4, 0x8b90798ac83d35b7e795cc9e2e335e5a1dd5ce7056600fff64fa49cb90a)
    ensures QuadQ1(0x8b90798ac83d35b7e795cc9e2e335e5a1dd5ce7056600fff64fa49cb90a, 2, 0x2d3bcd918bcba478a628001702d8b04923e640b403987f1fc67d3157bfe)
    ensures QuadQ1(0x2d3bcd918bcba478a628001702d8b04923e640b403987f1fc67d3157bfe, 4, 0x741b4d651f1b111afcbb38c6be9843c4a0f9fe7d83fcfe8dca99198c614)
    ensures QuadQ1(0x741b4d651f1b111afcbb38c6be9843c4a0f9fe7d83fcfe8dca99198c614, 2, 0x9aeed6af3cd6962eb1fed0a2eed74f50cf13b3a6a2c3d04fe5893695710)
    ensures QuadQ1(0x9aeed6af3cd6962eb1fed0a2eed74f50cf13b3a6a2c3d04fe5893695710, 1, 0x3aae1b6df46a4c8fb75978fea62af847549788ea5a6eaabe7fcc209dfed)
    ensures QuadQ1(0x3aae1b6df46a4c8fb75978fea62af847549788ea5a6eaabe7fcc209dfed, 2, 0x5602492ed8d3665fa0936352c3c44013beb514640f5e3f3464801f703c1)
    ensures QuadQ1(0x5602492ed8d3665fa0936352c3c44013beb514640f5e3f3464801f703c1, 2, 0x1c10b10f0d770e2b4f134450d70d90b11a7eda2f2bd99c2897b1825b943)
    ensures QuadQ1(0x1c10b10f0d770e2b4f134450d70d90b11a7eda2f2bd99c2897b1825b943, 1, 0x559eec119ed89e97e3880bf554e4dfac497e175c7ba49916ac3c2c04347)
    ensures QuadQ1(0x559eec119ed89e97e3880bf554e4dfac497e175c7ba49916ac3c2c04347, 2, 0x5a05067357764cfef7060027131df16728fb3f254737bbe73b15f3944cc)
    ensures QuadQ1(0x5a05067357764cfef7060027131df16728fb3f254737bbe73b15f3944cc, 1, 0x8691a864666d02d29e6e8f858711919bf3ea1f7df0bc23e87518f90e96f)
    ensures QuadQ1(0x8691a864666d02d29e6e8f858711919bf3ea1f7df0bc23e87518f90e96f, 2, 0x490fec71011ed64ef2af768ef6b9906cb3742b3c85212636a4931939688)
    ensures QuadQ1(0x490fec71011ed64ef2af768ef6b9906cb3742b3c85212636a4931939688, 4, 0x897d4e5ca6b621a204246bf1e6b3ccf0c3abffea8fbf99e759e1d4e4441)
    ensures QuadQ1(0x897d4e5ca6b621a204246bf1e6b3ccf0c3abffea8fbf99e759e1d4e4441, 2, 0x5c3eaad9e0a57b95ad21afdbfd7722ede32fb5911db11f86dd664e13806)
    ensures QuadQ1(0x5c3eaad9e0a57b95ad21afdbfd7722ede32fb5911db11f86dd664e13806, 8, 0x59a177ec303be469991b48d06373b36d457769c4c58ca76fd75ee1dd90a)
  {}

  lemma PowerQ1_4()
    ensures At(0xabaf8c6b094fd0f32c2ccabab864dbecd99144679c1adf804898fb2042b, 0xabaf8c6b094fd0f32c2ccabab864dbecd9914467, 0x59a177ec303be469991b48d06373b36d457769c4c58ca76fd75ee1dd90a)
  {
    PowerQ1_3();
    PowerQ1_4_Residues();
    DigitsQ1();
  }

  lemma PowerQ1_5_Residues()
    ensures QuadQ1(0x59a177ec303be469991b48d06373b36d457769c4c58ca76fd75ee1dd90a, 4, 0x1f6a5c1a41e4cd6b266242bc6424ecfb3146d291f581264a1f5a5766e64)
    ensures QuadQ1(0x1f6a5c1a41e4cd6b266242bc6424ecfb3146d291f581264a1f5a5766e64, 2, 0xaa738e91cf630c4b2d4d9a87f107c67600d65c9394c40a69c0a8bfbbd71)
    ensures QuadQ1(0xaa738e91cf630c4b2d4d9a87f107c67600d65c9394c40a69c0a8bfbbd71, 8, 0x637c0ee2cc0b6dcaeb599a30cc6b5d5dbdfa848a45dbe37fdd479c4d74f)
    ensures QuadQ1(0x637c0ee2cc0b6dcaeb599a30cc6b5d5dbdfa848a45dbe37fdd479c4d74f, 1, 0x94b51c1c08bb6106c387702367d83969555138f3b551b4b89d2146436a4)
    ensures QuadQ1(0x94b51c1c08bb6106c387702367d83969555138f3b551b4b89d2146436a4, 1, 0x86f74f5ec5ff134be9d6cabfc5bb6425c6403b050394f7188bf8c42ec18)
    ensures QuadQ1(0x86f74f5ec5ff134be9d6cabfc5bb6425c6403b050394f7188bf8c42ec18, 2, 0x506725a0e8768ca4f235a0c11ddcc1eb8e7929ccfb68c61926032997176)
    ensures QuadQ1(0x506725a0e8768ca4f235a0c11ddcc1eb8e7929ccfb68c61926032997176, 4, 0x6d1c99105d69cfa4b34039d04921430209fa4072abde9485c38ad25c111)
    ensures QuadQ1(0x6d1c99105d69cfa4b34039d04921430209fa4072abde9485c38ad25c111, 4, 0xa81cc8bb256fba5be9172c780f8f2ca8330a1cd3a1145636c53d52e39f)
    ensures QuadQ1(0xa81cc8bb256fba5be9172c780f8f2ca8330a1cd3a1145636c53d52e39f, 8, 0x699af81c372d528cce7bccde3373e7c7df0387b942aedca056e655b519)
    ensures QuadQ1(0x699af81c372d528cce7bccde3373e7c7df0387b942aedca056e655b519, 2, 0x29931d92ac4fbe34984e3ce2fcbdf241512f68a022c7aba70da45fbb3a2)
    ensures QuadQ1(0x29931d92ac4fbe34984e3ce2fcbdf241512f68a022c7aba70da45fbb3a2, 8, 0xa42e922f1c687226936f25e8a29429758a5642876521ef4aef8706f2d2c)
    ensures QuadQ1(0xa42e922f1c687226936f25e8a29429758a5642876521ef4aef8706f2d2c, 8, 0x2d97383a0fe72a5348cabcc7d02162a6eba8a6799043408a18dd3b04cab)
    ensures QuadQ1(0x2d97383a0fe72a5348cabcc7d02162a6eba8a6799043408a18dd3b04cab, 4, 0xa5d7e7e44b3a91932fddde4acb4ed2bf29f935be4dc1f72473ed2c55da)
    ensures QuadQ1(0xa5d7e7e44b3a91932fddde4acb4ed2bf29f935be4dc1f72473ed2c55da, 1, 0x19945ee73120db1556bc5ac04bbf87503fbd63f3fafedc8fdc5bff65b07)
    ensures QuadQ1(0x19945ee73120db1556bc5ac04bbf87503fbd63f3fafedc8fdc5bff65b07, 1, 0x43057f7d9f64976176d0314c103e673a8ec2932e719030ed73bdcdd89f9)
    ensures QuadQ1(0x43057f7d9f64976176d0314c103e673a8ec2932e719030ed73bdcdd89f9, 1, 0x9ce01cb3d6a735e738ebec2a6955cd5ce7cd8100b65a09f089bba8af036)
  {}

  lemma PowerQ1_5()
    ensures At(0xabaf8c6b094fd0f32c2ccabab864dbecd99144679c1adf804898fb2042b, 0xabaf8c6b094fd0f32c2ccabab864dbecd99144679c1adf80, 0x9ce01cb3d6a735e738ebec2a6955cd5ce7cd8100b65a09f089bba8af036)
  {
    PowerQ1_4();
    PowerQ1_5_Residues();
    DigitsQ1();
  }

  lemma PowerQ1_6_Residues()
    ensures QuadQ1(0x9ce01cb3d6a735e738ebec2a6955cd5ce7cd8100b65a09f089bba8af036, 2, 0x40e44cbfb2f3391b38edbd3db97d755d0e88fcc48d3a3eabe7807d97d0c)
    ensures QuadQ1(0x40e44cbfb2f3391b38edbd3db97d755d0e88fcc48d3a3eabe7807d97d0c, 1, 0x30739c1ed97aba889513453de982dcfa51dfecbd53f6d05a392fde8dc77)
    ensures QuadQ1(0x30739c1ed97aba889513453de982dcfa51dfecbd53f6d05a392fde8dc77, 4, 0xa116c71903797155836da0a98151bea8de75e5c82e027ccf32d737a8b74)
    ensures QuadQ1(0xa116c71903797155836da0a98151bea8de75e5c82e027ccf32d737a8b74, 1, 0x490b0add75eb793e615e0705b853be2bcadbd7322782afe941dee347afd)
    ensures QuadQ1(0x490b0add75eb793e615e0705b853be2bcadbd7322782afe941dee347afd, 4, 0x5f93e21ff0d87b275d01ae2e07f5dc88f61d0dd2a885880451ceafb374d)
    ensures QuadQ1(0x5f93e21ff0d87b275d01ae2e07f5dc88f61d0dd2a885880451ceafb374d, 2, 0x41a9631f8cdbfadab50e412382f6dee9cc77bf94b2622f905b0b96f8c96)
    ensures QuadQ1(0x41a9631f8cdbfadab50e412382f6dee9cc77bf94b2622f905b0b96f8c96, 4, 0x3b873110bc35608c993b6dd1eba01e4f93a15b0f4ab8c6d062e875ce828)
    ensures QuadQ1(0x3b873110bc35608c993b6dd1eba01e4f93a15b0f4ab8c6d062e875ce828, 1, 0x91a0051e6ee101ad8800024798e93aa1975000e4be003810dde3e45e171)
    ensures QuadQ1(0x91a0051e6ee101ad8800024798e93aa1975000e4be003810dde3e45e171, 8, 0x520c5c9dbaa8dea01905d24e45ef6f8f862da2d2405d77b9903b077aa46)
    ensures QuadQ1(0x520c5c9dbaa8dea01905d24e45ef6f8f862da2d2405d77b9903b077aa46, 8, 0x1deade668010cea7c1eb364359e0c882bc6b9952c91e515a1a55e8655fc)
    ensures QuadQ1(0x1deade668010cea7c1eb364359e0c882bc6b9952c91e515a1a55e8655fc, 4, 0x9f25c3c119485fbf3a9f586b2f4a6154ca0266f3174201aa30a957e41d7)
    ensures QuadQ1(0x9f25c3c119485fbf3a9f586b2f4a6154ca0266f3174201aa30a957e41d7, 8, 0x9cadcd6295e8e65487d8d9167c9f611713346dc929cad6c0d1fed199cb7)
    ensures QuadQ1(0x9cadcd6295e8e65487d8d9167c9f611713346dc929cad6c0d1fed199cb7, 1, 0xde6fda29aa0bdf7f2021f62efa73fca6596b95fc6fe1768899d3dd4e3f)
    ensures QuadQ1(0xde6fda29aa0bdf7f2021f62efa73fca6596b95fc6fe1768899d3dd4e3f, 4, 0x2f24af634d40423bc52e9d24cd96cb68e39039e79b9ef49ce25513802b3)
    ensures QuadQ1(0x2f24af634d40423bc52e9d24cd96cb68e39039e79b9ef49ce25513802b3, 1, 0x63109cf83686d15ba9419a5bcc9a43c2e4a4fe918ea78b1a7deab2b9744)
    ensures QuadQ1(0x63109cf83686d15ba9419a5bcc9a43c2e4a4fe918ea78b1a7deab2b9744, 1, 0x67574d5dc68a22aa0c1f64bf4b37f7def432b77f7d1716d10ce10f6a6c)
  {}

  lemma PowerQ1_6()
    ensures At(0xabaf8c6b094fd0f32c2ccabab864dbecd99144679c1adf804898fb2042b, 0xabaf8c6b094fd0f32c2ccabab864dbecd99144679c1adf804898fb20, 0x67574d5dc68a22aa0c1f64bf4b37f7def432b77f7d1716d10ce10f6a6c)
  {
    PowerQ1_5();
    PowerQ1_6_Residues();
    DigitsQ1();
  }

  lemma PowerQ1_7_Residues()
    ensures QuadQ1(0x67574d5dc68a22aa0c1f64bf4b37f7def432b77f7d1716d10ce10f6a6c, 2, 0x826c5cfcef7ddd86b2a75ec6123e073bdc2f633d18a987efa178b23ff2c)
    ensures QuadQ1(0x826c5cfcef7ddd86b2a75ec6123e073bdc2f633d18a987efa178b23ff2c, 1, 0xa13016f6a922f690af065b91e8464a282ee92cd7342e1da335c82ae55a7)
    ensures QuadQ1(0xa13016f6a922f690af065b91e8464a282ee92cd7342e1da335c82ae55a7, 1, 0x18426765754e8160a7f4160b5a6c62533f223ddd1218d545f844f01033d)
    ensures QuadQ1(0x18426765754e8160a7f4160b5a6c62533f223ddd1218d545f844f01033d, 4, 0x4329e4c4f84478de922756136591199af377e403bc6032b19a2d8237f7a)
    ensures QuadQ1(0x4329e4c4f84478de922756136591199af377e403bc6032b19a2d8237f7a, 4, 0x38b43a2b327a87881014b924b54214c7e69f4f60894b909ee47d7da8bf4)
    ensures QuadQ1(0x38b43a2b327a87881014b924b54214c7e69f4f60894b909ee47d7da8bf4, 4, 0x1)
  {}

  lemma PowerQ1_7()
    ensures At(0xabaf8c6b094fd0f32c2ccabab864dbecd99144679c1adf804898fb2042b, 0xabaf8c6b094fd0f32c2ccabab864dbecd99144679c1adf804898fb2042a, 0x1)
  {
    PowerQ1_6();
    PowerQ1_7_Residues();
    DigitsQ1();
  }

  lemma RootQ1_0_Residues()
    ensures QuadQ1(0x1, 4, 0x4)
    ensures QuadQ1(0x4, 8, 0x800)
    ensures QuadQ1(0x800, 8, 0x800000000000)
    ensures QuadQ1(0x800000000000, 2, 0x200000000000000000000000000000000000000000000000)
    ensures QuadQ1(0x200000000000000000000000000000000000000000000000, 1, 0x1575f18d6129fa1e65859957570c9b7d9b32288cf3835bf009131f64095)
    ensures QuadQ1(0x1575f18d6129fa1e65859957570c9b7d9b32288cf3835bf009131f64095, 1, 0x9c2295e31767e636259c7c1deed13941559c6c0579a73061da059fefd3f)
    ensures QuadQ1(0x9c2295e31767e636259c7c1deed13941559c6c0579a73061da059fefd3f, 8, 0x2ab2d9be5cddc7ab119c6d5cd8c0067479a78639a092b94fb1a666f9b61)
    ensures QuadQ1(0x2ab2d9be5cddc7ab119c6d5cd8c0067479a78639a092b94fb1a666f9b61, 2, 0x1915cb3e4ff6e29f92d957143a9a41090ce287174db79468d575ba7062f)
    ensures QuadQ1(0x1915cb3e4ff6e29f92d957143a9a41090ce287174db79468d575ba7062f, 1, 0x47ed91f9e30696c95f893badb61bd79ac630564c46ebfac55ad80409024)
    ensures QuadQ1(0x47ed91f9e30696c95f893badb61bd79ac630564c46ebfac55ad80409024, 2, 0x5422485ff1f494f98dace9fb2dbb7b389b6cc135d9a829625638397d4ca)
    ensures QuadQ1(0x5422485ff1f494f98dace9fb2dbb7b389b6cc135d9a829625638397d4ca, 2, 0x694f9def2b863bcfe29e3efe3af3b25a103f679a95ce819fda29104e084)
    ensures QuadQ1(0x694f9def2b863bcfe29e3efe3af3b25a103f679a95ce819fda29104e084, 1, 0x3d5c1fd1357668adbc8cd1a8afdacb0f87fa1ee62680b76b3d822405076)
    ensures QuadQ1(0x3d5c1fd1357668adbc8cd1a8afdacb0f87fa1ee62680b76b3d822405076, 8, 0xaae8f053ae2ed9801733deb180bfa3073cd78cdb29a508fb08902164a25)
    ensures QuadQ1(0xaae8f053ae2ed9801733deb180bfa3073cd78cdb29a508fb08902164a25, 1, 0x44fcdedf04753ed8c8ee915986db0b0a72ae2d45022447a3a9dc506e3ef)
    ensures QuadQ1(0x44fcdedf04753ed8c8ee915986db0b0a72ae2d45022447a3a9dc506e3ef, 8, 0x4c93bfc17e5eed011591d724972c15ad4f0c7db6a31c19d543fec4f6338)
    ensures QuadQ1(0x4c93bfc17e5eed011591d724972c15ad4f0c7db6a31c19d543fec4f6338, 8, 0x3590cbf2c861435418e1ebbfdc94aa2753fc3dcd96b2e829500460504e4)
  {}

  lemma RootQ1_0()
    ensures At(0xabaf8c6b094fd0f32c2ccabab864dbecd99144679c1adf804898fb2042b, 0xbd0d14cf, 0x3590cbf2c861435418e1ebbfdc94aa2753fc3dcd96b2e829500460504e4)
  {
    Start(0xabaf8c6b094fd0f32c2ccabab864dbecd99144679c1adf804898fb2042b);
    RootQ1_0_Residues();
    DigitsQ1();
  }

  lemma RootQ1_1_Residues()
    ensures QuadQ1(0x3590cbf2c861435418e1ebbfdc94aa2753fc3dcd96b2e829500460504e4, 2, 0x81c638239d085d3ad08480a21330a6c834331a6451431a1028d3502ff25)
    ensures QuadQ1(0x81c638239d085d3ad08480a21330a6c834331a6451431a1028d3502ff25, 8, 0x405bb5b8ca0216da0c6f86ed1333a8bd775fed021a663d4e2b36235719b)
    ensures QuadQ1(0x405bb5b8ca0216da0c6f86ed1333a8bd775fed021a663d4e2b36235719b, 4, 0x904ba4c874b1f0f05b0450a279336362c7e1488ac92ee8f5da6f563364a)
    ensures QuadQ1(0x904ba4c874b1f0f05b0450a279336362c7e1488ac92ee8f5da6f563364a, 1, 0xa5f7104ec5019bccb3280196d860001a7443841d5ec0ed143bc88362c22)
    ensures QuadQ1(0xa5f7104ec5019bccb3280196d860001a7443841d5ec0ed143bc88362c22, 8, 0xab899e114625eeca247394185b8b10ed04cd483d38b90796a45e4ce6867)
    ensures QuadQ1(0xab899e114625eeca247394185b8b10ed04cd483d38b90796a45e4ce6867, 4, 0x2ecbe1d5d2a4e8bd96f9b7b79219fb1f19e861a83c56e62b50f54f2cb10)
    ensures QuadQ1(0x2ecbe1d5d2a4e8bd96f9b7b79219fb1f19e861a83c56e62b50f54f2cb10, 2, 0x877adfa6f8638081cc6b9c95ca5cef436014ca8cf2d5d3372d43dfb5928)
    ensures QuadQ1(0x877adfa6f8638081cc6b9c95ca5cef436014ca8cf2d5d3372d43dfb5928, 8, 0x83cb33627fafca484eea55f3ed3e53cd71569273276be4273e9744e83e0)
    ensures QuadQ1(0x83cb33627fafca484eea55f3ed3e53cd71569273276be4273e9744e83e0, 2, 0x77a545aee6778b3540b8d04f689d1e580d4d609671bde4fb96d6e1c2424)
    ensures QuadQ1(0x77a545aee6778b3540b8d04f689d1e580d4d609671bde4fb96d6e1c2424, 2, 0x11b8a152725ff5497da478350aa19b4f57f74d3443661db52819303f267)
    ensures QuadQ1(0x11b8a152725ff5497da478350aa19b4f57f74d3443661db52819303f267, 1, 0x681cea30777f864767ca5c72c2e0c9366d4bea0ed36db67f72e1b824700)
    ensures QuadQ1(0x681cea30777f864767ca5c72c2e0c9366d4bea0ed36db67f72e1b824700, 4, 0x66890395acbd229953540895de9c35dfd3b00c3391b3fbbeda237c04bba)
    ensures QuadQ1(0x66890395acbd229953540895de9c35dfd3b00c3391b3fbbeda237c04bba, 1, 0x96131899c63d71007c8e92a4eff37266d2ee68854c1e56c38cb6cadc056)
    ensures QuadQ1(0x96131899c63d71007c8e92a4eff37266d2ee68854c1e56c38cb6cadc056, 2, 0xa93f25bba885b9252329b137dc883cf54091cd537fef79da6849f6d345b)
    ensures QuadQ1(0xa93f25bba885b9252329b137dc883cf54091cd537fef79da6849f6d345b, 4, 0x89283d0d222956de5001ac765776b44cad63015b2232b0bda5fcd71230f)
    ensures QuadQ1(0x89283d0d222956de5001ac765776b44cad63015b2232b0bda5fcd71230f, 4, 0xa35d8d8f64b75f6c4a1be3f7bfeb14dec55fd2156f8b898db65dac5c275)
  {}

  lemma RootQ1_1()
    ensures At(0xabaf8c6b094fd0f32c2ccabab864dbecd99144679c1adf804898fb2042b, 0xbd0d14cf78e7521a, 0xa35d8d8f64b75f6c4a1be3f7bfeb14dec55fd2156f8b898db65dac5c275)
  {
    RootQ1_0();
    RootQ1_1_Residues();
    DigitsQ1();
  }

  lemma RootQ1_2_Residues()
    ensures QuadQ1(0xa35d8d8f64b75f6c4a1be3f7bfeb14dec55fd2156f8b898db65dac5c275, 1, 0x1c53d340376af8cfca4f67d25d18d47b236324e1a764da948477e92628b)
    ensures QuadQ1(0x1c53d340376af8cfca4f67d25d18d47b236324e1a764da948477e92628b, 8, 0x8020869b0a913f93aec77582682727fd398026d582cdb54e68fa8cfc38c)
    ensures QuadQ1(0x8020869b0a913f93aec77582682727fd398026d582cdb54e68fa8cfc38c, 1, 0x9e649a67a4dc4fcc3907d0adafafe3aed2883cebd206262a3f7c68f33d)
    ensures QuadQ1(0x9e649a67a4dc4fcc3907d0adafafe3aed2883cebd206262a3f7c68f33d, 4, 0x7f7597cdd3c877340a980a10f28f7bd44170bf96fb6e9d8a7500735f18b)
    ensures QuadQ1(0x7f7597cdd3c877340a980a10f28f7bd44170bf96fb6e9d8a7500735f18b, 4, 0x96d2c969627da713cad78c935f91c840b1e6a93152df5ef406bf417b7c4)
    ensures QuadQ1(0x96d2c969627da713cad78c935f91c840b1e6a93152df5ef406bf417b7c4, 2, 0x9318ee288e9756eff6e670b0ecca0cf5106fa7c006befaf94804342cf7e)
    ensures QuadQ1(0x9318ee288e9756eff6e670b0ecca0cf5106fa7c006befaf94804342cf7e, 1, 0x5f232d211cad15e53e3a956ec029ae0c7d4a363f98c30c4217155b03e32)
    ensures QuadQ1(0x5f232d211cad15e53e3a956ec029ae0c7d4a363f98c30c4217155b03e32, 2, 0x28db7db68c1382ebca9d97999fc91f2e7ec2f4dae1b50a890d0c98ceb3b)
    ensures QuadQ1(0x28db7db68c1382ebca9d97999fc91f2e7ec2f4dae1b50a890d0c98ceb3b, 4, 0x8ec0ece8d1c70fa46ce9a84130fc7862194ca52ee39dbc9bccd849f1134)
    ensures QuadQ1(0x8ec0ece8d1c70fa46ce9a84130fc7862194ca52ee39dbc9bccd849f1134, 1, 0x191ab7bc343c628269193e1f3b3661f2fc43d86e3a3945eaa4ce0581c49)
    ensures QuadQ1(0x191ab7bc343c628269193e1f3b3661f2fc43d86e3a3945eaa4ce0581c49, 4, 0x6d18b4092d072cfb745aa6e3b53fcd7b510266a4fd1b331deac0331d450)
    ensures QuadQ1(0x6d18b4092d072cfb745aa6e3b53fcd7b510266a4fd1b331deac0331d450, 1, 0x9f254955df08c93c067baa8495de768e15726947b90bdcd4eacc89b7546)
    ensures QuadQ1(0x9f254955df08c93c067baa8495de768e15726947b90bdcd4eacc89b7546, 8, 0x67ce1d1c80fe37780fd186479d9fbc96c40ea65e8fa7cb70d1bc6eb2fa8)
    ensures QuadQ1(0x67ce1d1c80fe37780fd186479d9fbc96c40ea65e8fa7cb70d1bc6eb2fa8, 4, 0xa1ac6b40e5cae5858f15b1990489ac87ae8963971fa5721264f97f12c02)
    ensures QuadQ1(0xa1ac6b40e5cae5858f15b1990489ac87ae8963971fa5721264f97f12c02, 4, 0x14c97ecab69056698bf65a377fb2393a67dd9816da34dbe0179dcefa47b)
    ensures QuadQ1(0x14c97ecab69056698bf65a377fb2393a67dd9816da34dbe0179dcefa47b, 2, 0x3acf2096c14e1b7fca61f3eee671d3421087e6919bfb43a8ac6ca187d41)
  {}

  lemma RootQ1_2()
    ensures At(0xabaf8c6b094fd0f32c2ccabab864dbecd99144679c1adf804898fb2042b, 0xbd0d14cf78e7521a329188e9, 0x3acf2096c14e1b7fca61f3eee671d3421087e6919bfb43a8ac6ca187d41)
  {
    RootQ1_1();
    RootQ1_2_Residues();
    DigitsQ1();
  }

  lemma RootQ1_3_Residues()
    ensures QuadQ1(0x3acf2096c14e1b7fca61f3eee671d3421087e6919bfb43a8ac6ca187d41, 8, 0x18a032b6dbdd0ffa50f8321ad648db97637a5b429266fc8dc93238518c3)
    ensures QuadQ1(0x18a032b6dbdd0ffa50f8321ad648db97637a5b429266fc8dc93238518c3, 8, 0x32ab2873918a7aecbfb6d6af28c203c819c0c0017539810a225c1ebc092)
    ensures QuadQ1(0x32ab2873918a7aecbfb6d6af28c203c819c0c0017539810a225c1ebc092, 4, 0x5641d4e5de2cc434d8ff2a159299498cca60897ed388a0aef15ff0da0ce)
    ensures QuadQ1(0x5641d4e5de2cc434d8ff2a159299498cca60897ed388a0aef15ff0da0ce, 4, 0x9823bc824ddf4238bf45872426c1302f752184c5056f87a8f42c1600555)
    ensures QuadQ1(0x9823bc824ddf4238bf45872426c1302f752184c5056f87a8f42c1600555, 2, 0x3380985bbb3964a6cc6fbfc5444ec2fb50c1af4cd9673da926edf837d0d)
    ensures QuadQ1(0x3380985bbb3964a6cc6fbfc5444ec2fb50c1af4cd9673da926edf837d0d, 1, 0x15ffe601f5b00c84e6b79ed19993fac9d4e536125b1eb5a8d2a9339d2b)
    ensures QuadQ1(0x15ffe601f5b00c84e6b79ed19993fac9d4e536125b1eb5a8d2a9339d2b, 4, 0x3a40cd496b38c85262acc65b5751cf807ec56bf6ee4146d56ab4a25e977)
    ensures QuadQ1(0x3a40cd496b38c85262acc65b5751cf807ec56bf6ee4146d56ab4a25e977, 2, 0x955deee08c97abfb04f70d7ac170d444f78674df8f534264a84f7ac6bc5)
    ensures QuadQ1(0x955deee08c97abfb04f70d7ac170d444f78674df8f534264a84f7ac6bc5, 2, 0x8acc4a87344f44985b9ab5599431a6b28010d329ab6b431cc39822a21b5)
    ensures QuadQ1(0x8acc4a87344f44985b9ab5599431a6b28010d329ab6b431cc39822a21b5, 4, 0x497b1976e2c5196437c64570ab1267dc3ee2476cb1f39398a436a2a1147)
    ensures QuadQ1(0x497b1976e2c5196437c64570ab1267dc3ee2476cb1f39398a436a2a1147, 4, 0x645b08dfbcd1d8f70ba37aa8fe62a64990262ab94952a38617885b46dc7)
    ensures QuadQ1(0x645b08dfbcd1d8f70ba37aa8fe62a64990262ab94952a38617885b46dc7, 4, 0xa118eb0f9d8184bab59e8e45df736d65fba3c64f4aa855bc8921ac18308)
  {}

  lemma RootQ1_3()
    ensures At(0xabaf8c6b094fd0f32c2ccabab864dbecd99144679c1adf804898fb2042b, 0xbd0d14cf78e7521a329188e9fa496a, 0xa118eb0f9d8184bab59e8e45df736d65fba3c64f4aa855bc8921ac18308)
  {
    RootQ1_2();
    RootQ1_3_Residues();
    DigitsQ1();
  }

  lemma IsPrimeQ1()
    ensures IsPrime(0xabaf8c6b094fd0f32c2ccabab864dbecd99144679c1adf804898fb2042b)
  {
    IsPrimeQ2();
    PowerQ1_7();
    RootQ1_3();
    CongIntro(0xa35a14fb1452ddd0fca6eef50ac9bd9a369cab894104fc366d4fa595e38 * (0xa118eb0f9d8184bab59e8e45df736d65fba3c64f4aa855bc8921ac18308 - 1), 1, 0xabaf8c6b094fd0f32c2ccabab864dbecd99144679c1adf804898fb2042b, 0x9947077cf95ee7c5af8d022726b2cf5d7414add310510833ec83cebac15);
    Criterion(0xabaf8c6b094fd0f32c2ccabab864dbecd99144679c1adf804898fb2042b, 0xe87c2a477b815a1793787395b23e1, 0xbd0d14cf78e7521a329188e9fa496a, 0xa118eb0f9d8184bab59e8e45df736d65fba3c64f4aa855bc8921ac18308, 0xa35a14fb1452ddd0fca6eef50ac9bd9a369cab894104fc366d4fa595e38);
  }

  ghost predicate QuadP(x: int, t: int, y: int) {
    (t == 1 || t == 2 || t == 4 || t == 8) && (x * x) * (x * x) * t % 0x7fffffffffffffffffffffffffffffffffffffffffffffffffffffffffffffed == y
  }

  lemma DigitsP()
    ensures forall e: nat, x, t, y {:trigger At(0x7fffffffffffffffffffffffffffffffffffffffffffffffffffffffffffffed, e, x), QuadP(x, t, y)} ::
              At(0x7fffffffffffffffffffffffffffffffffffffffffffffffffffffffffffffed, e, x) && QuadP(x, t, y) ==> At(0x7fffffffffffffffffffffffffffffffffffffffffffffffffffffffffffffed, 4 * e + DigitOf(t), y)
  {
    forall e: nat, x, t, y | At(0x7fffffffffffffffffffffffffffffffffffffffffffffffffffffffffffffed, e, x) && QuadP(x, t, y)
      ensures At(0x7fffffffffffffffffffffffffffffffffffffffffffffffffffffffffffffed, 4 * e + DigitOf(t), y)
    {
      OneDigit(0x7fffffffffffffffffffffffffffffffffffffffffffffffffffffffffffffed, e, x, t, y);
    }
  }

  lemma PowerP_0_Residues()
    ensures QuadP(0x1, 2, 0x2)
    ensures QuadP(0x2, 8, 0x80)
    ensures QuadP(0x80, 8, 0x80000000)
    ensures QuadP(0x80000000, 8, 0x80000000000000000000000000000000)
    ensures QuadP(0x80000000000000000000000000000000, 8, 0x2d2)
    ensures QuadP(0x2d2, 8, 0x1fa264d9080)
    ensures QuadP(0x1fa264d9080, 8, 0x7a3fc737f93f58db10bf314a30b1e9824080000000)
    ensures QuadP(0x7a3fc737f93f58db10bf314a30b1e9824080000000, 8, 0x1f0dfe590cd9d85bc54f6df96a681c2f5d07c94c7b4a77dc54a7229c1723133a)
    ensures QuadP(0x1f0dfe590cd9d85bc54f6df96a681c2f5d07c94c7b4a77dc54a7229c1723133a, 8, 0xde3d0ec62b72d4aeb36cbf321895273c2f8448d08a0b497109c12f489b2c1f5)
    ensures QuadP(0xde3d0ec62b72d4aeb36cbf321895273c2f8448d08a0b497109c12f489b2c1f5, 8, 0x1b776bbea07930d25162ad35f34a44e31ad5e75309fb8e7a6274fca9b38b5064)
    ensures QuadP(0x1b776bbea07930d25162ad35f34a44e31ad5e75309fb8e7a6274fca9b38b5064, 8, 0x423ff9abcd6e0ac2cf971a6f0233cadea24c49c564bb59aeea815d78b0bdff17)
    ensures QuadP(0x423ff9abcd6e0ac2cf971a6f0233cadea24c49c564bb59aeea815d78b0bdff17, 8, 0x5c221fac61c0d6ffe66104d19e84e07208db61a97320b6960d900864519e3877)
    ensures QuadP(0x5c221fac61c0d6ffe66104d19e84e07208db61a97320b6960d900864519e3877, 8, 0x7b87c61a21bd1607de6d79162713dc578522256259be972e711046f84f99ef74)
    ensures QuadP(0x7b87c61a21bd1607de6d79162713dc578522256259be972e711046f84f99ef74, 8, 0x36accf8464cc55eb112dfe4ce8a197c0a0e7dd3a65cc0db42d86974422d51bcf)
    ensures QuadP(0x36accf8464cc55eb112dfe4ce8a197c0a0e7dd3a65cc0db42d86974422d51bcf, 8, 0x1d6a3e0e33e7d36e6f1956bbcfc0fb038ff048f6e430c94db515f9aeae98564)
    ensures QuadP(0x1d6a3e0e33e7d36e6f1956bbcfc0fb038ff048f6e430c94db515f9aeae98564, 8, 0x539ee148b32774f7f3aaeca65f110118df5ca04f77e1232fded8d83cce9a9b08)
  {}

  lemma PowerP_0()
    ensures At(0x7fffffffffffffffffffffffffffffffffffffffffffffffffffffffffffffed, 0x7fffffff, 0x539ee148b32774f7f3aaeca65f110118df5ca04f77e1232fded8d83cce9a9b08)
  {
    Start(0x7fffffffffffffffffffffffffffffffffffffffffffffffffffffffffffffed);
    PowerP_0_Residues();
    DigitsP();
  }

  lemma PowerP_1_Residues()
    ensures QuadP(0x539ee148b32774f7f3aaeca65f110118df5ca04f77e1232fded8d83cce9a9b08, 8, 0x4544a25fe11230f1ac5e2c3229e3cb05acd1b509957074665eb3ae801b4d6511)
    ensures QuadP(0x4544a25fe11230f1ac5e2c3229e3cb05acd1b509957074665eb3ae801b4d6511, 8, 0x450172c0ac3a455a330d82fc1fc4e86d23d66bf206db8ee551b8855f0760813f)
    ensures QuadP(0x450172c0ac3a455a330d82fc1fc4e86d23d66bf206db8ee551b8855f0760813f, 8, 0x63eb51ea169cde66974dad19de73cf0d5fc158c29c4f1bfc548adc741b397dec)
    ensures QuadP(0x63eb51ea169cde66974dad19de73cf0d5fc158c29c4f1bfc548adc741b397dec, 8, 0x28d053961137c98ea810238b76355510820e9c5668a70f4c33c02649f16a065)
    ensures QuadP(0x28d053961137c98ea810238b76355510820e9c5668a70f4c33c02649f16a065, 8, 0x1c2261269bde5d8a23e88bdcfa0efa5f91c60951386a6441dfa38e5f6c500bc3)
    ensures QuadP(0x1c2261269bde5d8a23e88bdcfa0efa5f91c60951386a6441dfa38e5f6c500bc3, 8, 0x65fd3f4e16ec12888efb70cc8b28a29273846a5da1823ce24525c3af1a0e5928)
    ensures QuadP(0x65fd3f4e16ec12888efb70cc8b28a29273846a5da1823ce24525c3af1a0e5928, 8, 0x45e788cb47435e1b6fc2051646cbe0eb6024b4dc2885f89bed089a226205a5b8)
    ensures QuadP(0x45e788cb47435e1b6fc2051646cbe0eb6024b4dc2885f89bed089a226205a5b8, 8, 0x60302490d899f5f2e9e02601a667c42b7d6d8b1c905afb24b5b1f35ed9c4d703)
    ensures QuadP(0x60302490d899f5f2e9e02601a667c42b7d6d8b1c905afb24b5b1f35ed9c4d703, 8, 0x37bb5bbcc46568414878c06702bb06e01dfef02225d056072546c7c8f2231075)
    ensures QuadP(0x37bb5bbcc46568414878c06702bb06e01dfef02225d056072546c7c8f2231075, 8, 0x639782956b2d03c3b50ee26f49583a17c209caff6f283b5f308dbc8fa243804d)
    ensures QuadP(0x639782956b2d03c3b50ee26f49583a17c209caff6f283b5f308dbc8fa243804d, 8, 0x62b27de316c873c65664c140ea184f417a463bb2f2bd349003527247adeca31e)
    ensures QuadP(0x62b27de316c873c65664c140ea184f417a463bb2f2bd349003527247adeca31e, 8, 0x5db09e4076e9cef49658f729d857859216d074616635cbcf8f178d0b5c23b74e)
    ensures QuadP(0x5db09e4076e9cef49658f729d857859216d074616635cbcf8f178d0b5c23b74e, 8, 0x714520e2ad0d3064e4648a0fa8e7213495c02233aa2f5ffb84c4edbcdc966f4f)
    ensures QuadP(0x714520e2ad0d3064e4648a0fa8e7213495c02233aa2f5ffb84c4edbcdc966f4f, 8, 0x1863621ef9cc507e2bc8b5340dcdc52c6b49032850bd067731b407940c6c62c6)
    ensures QuadP(0x1863621ef9cc507e2bc8b5340dcdc52c6b49032850bd067731b407940c6c62c6, 8, 0x3e9755f029ad926c8f281686ec26cd545a5851ed269a8d0eb2dc3fff1d3fe3db)
    ensures QuadP(0x3e9755f029ad926c8f281686ec26cd545a5851ed269a8d0eb2dc3fff1d3fe3db, 8, 0x419f3b1a98f90c89d23f8327b91b94acb7c20ec1b1840b06daf7e961f6ff7df9)
  {}

  lemma PowerP_1()
    ensures At(0x7fffffffffffffffffffffffffffffffffffffffffffffffffffffffffffffed, 0x7fffffffffffffff, 0x419f3b1a98f90c89d23f8327b91b94acb7c20ec1b1840b06daf7e961f6ff7df9)
  {
    PowerP_0();
    PowerP_1_Residues();
    DigitsP();
  }

  lemma PowerP_2_Residues()
    ensures QuadP(0x419f3b1a98f90c89d23f8327b91b94acb7c20ec1b1840b06daf7e961f6ff7df9, 8, 0x70ab5ea2da24b64d4d7191eefbe84cbe45d0ab9628454f2495915384beb77a15)
    ensures QuadP(0x70ab5ea2da24b64d4d7191eefbe84cbe45d0ab9628454f2495915384beb77a15, 8, 0x5e009653e507c594898678ae5d0037407ed5bf4610b44a725d19675bef3d6c13)
    ensures QuadP(0x5e009653e507c594898678ae5d0037407ed5bf4610b44a725d19675bef3d6c13, 8, 0x7e5441f05138612df3b7215ae4b97eda016c91f96e896a3f2385973c9790383a)
    ensures QuadP(0x7e5441f05138612df3b7215ae4b97eda016c91f96e896a3f2385973c9790383a, 8, 0x45224608a5add3adaba078f9a3888da0ba8914ba5c15a934580ebdfc060bf140)
    ensures QuadP(0x45224608a5add3adaba078f9a3888da0ba8914ba5c15a934580ebdfc060bf140, 8, 0x484c304b2cfe32810b6bef75002edd6a4bd07a326483a15477d83b979306ab07)
    ensures QuadP(0x484c304b2cfe32810b6bef75002edd6a4bd07a326483a15477d83b979306ab07, 8, 0x50238158174c551fb0a070b5ae8c248e3ec878e2f75cfb20010e28c37ad2ab1)
    ensures QuadP(0x50238158174c551fb0a070b5ae8c248e3ec878e2f75cfb20010e28c37ad2ab1, 8, 0x1344f1f380acdc6c84ccbdc91c4f1e3c3cf60dcb5c7bcea68c6559c0624fcda)
    ensures QuadP(0x1344f1f380acdc6c84ccbdc91c4f1e3c3cf60dcb5c7bcea68c6559c0624fcda, 8, 0x6da40bad5859c0b0f7e0d217a1555a70a40310e610ea052dca695e6e826223bc)
    ensures QuadP(0x6da40bad5859c0b0f7e0d217a1555a70a40310e610ea052dca695e6e826223bc, 8, 0x60c27697f559f88c2f8b1f2db010c5cab89e19c30795269440b599e1a9e3b23c)
    ensures QuadP(0x60c27697f559f88c2f8b1f2db010c5cab89e19c30795269440b599e1a9e3b23c, 8, 0x26886446a5c1070536bb80608b9df6dfd9bf5ae9748aba37d735fcc1e1fa7c72)
    ensures QuadP(0x26886446a5c1070536bb80608b9df6dfd9bf5ae9748aba37d735fcc1e1fa7c72, 8, 0x4b8d6f110d9bd3e9742dd96bb3945266df4b29ebf92e31d23561913dce9675d3)
    ensures QuadP(0x4b8d6f110d9bd3e9742dd96bb3945266df4b29ebf92e31d23561913dce9675d3, 8, 0x445eaa228303d740c1f0c8111aa1a43da17464872ee11c85c8b7263f67cbfcf8)
    ensures QuadP(0x445eaa228303d740c1f0c8111aa1a43da17464872ee11c85c8b7263f67cbfcf8, 8, 0x1648827ae6cf5096bf3df57e0e218860fc1e3850c1496ae29fa29c0390f88836)
    ensures QuadP(0x1648827ae6cf5096bf3df57e0e218860fc1e3850c1496ae29fa29c0390f88836, 8, 0x111baef8ecf7e940001fd734aaa12dc469820baec835b9fcc155b15c368e2e6e)
    ensures QuadP(0x111baef8ecf7e940001fd734aaa12dc469820baec835b9fcc155b15c368e2e6e, 8, 0x67cad1c7d7c7fd36134bcfa0e615c08130a84be05941d90990d2dbd8d36c49c8)
    ensures QuadP(0x67cad1c7d7c7fd36134bcfa0e615c08130a84be05941d90990d2dbd8d36c49c8, 8, 0x2abb4c95321b78db0dfd5768e49f7c21359a05f26807c5df6abbf8b7e0cc846b)
  {}

  lemma PowerP_2()
    ensures At(0x7fffffffffffffffffffffffffffffffffffffffffffffffffffffffffffffed, 0x7fffffffffffffffffffffff, 0x2abb4c95321b78db0dfd5768e49f7c21359a05f26807c5df6abbf8b7e0cc846b)
  {
    PowerP_1();
    PowerP_2_Residues();
    DigitsP();
  }

  lemma PowerP_3_Residues()
    ensures QuadP(0x2abb4c95321b78db0dfd5768e49f7c21359a05f26807c5df6abbf8b7e0cc846b, 8, 0x449c2f5239333dd904083b3ac10d9cbf3f1b688ce7060fe69a45633a5193b021)
    ensures QuadP(0x449c2f5239333dd904083b3ac10d9cbf3f1b688ce7060fe69a45633a5193b021, 8, 0x4b1497e95da51643fc9724f875c64ed1c77a2a0eb373cdab35e98c303b129df4)
    ensures QuadP(0x4b1497e95da51643fc9724f875c64ed1c77a2a0eb373cdab35e98c303b129df4, 8, 0x3738a60ebe123e5f8825254430aebeec235e0a6ab1f8118555ca73da288f542f)
    ensures QuadP(0x3738a60ebe123e5f8825254430aebeec235e0a6ab1f8118555ca73da288f542f, 8, 0x6116698f2fbdc0d9ffdd8b2145aa1560d54bc52fffc32bf29d4bc7f48dba18ba)
    ensures QuadP(0x6116698f2fbdc0d9ffdd8b2145aa1560d54bc52fffc32bf29d4bc7f48dba18ba, 8, 0x1b63eae1c1031c9387ed8d5b1b95dd0c0969e7108572b2e6ab5733340b5ca75f)
    ensures QuadP(0x1b63eae1c1031c9387ed8d5b1b95dd0c0969e7108572b2e6ab5733340b5ca75f, 8, 0x3bf660e9e465d9b4d35e5f5951b0ddf7f8990885004f6095e6b7737be653ed6d)
    ensures QuadP(0x3bf660e9e465d9b4d35e5f5951b0ddf7f8990885004f6095e6b7737be653ed6d, 8, 0xfd7b2f998a56543be37c177e850888f82727268000fe49954a112390864f7b9)
    ensures QuadP(0xfd7b2f998a56543be37c177e850888f82727268000fe49954a112390864f7b9, 8, 0x4654c072c17c2aadd95251b2543f6eee8ae3c8b5c8758ecddc0a4e682a7108f4)
    ensures QuadP(0x4654c072c17c2aadd95251b2543f6eee8ae3c8b5c8758ecddc0a4e682a7108f4, 8, 0x7f5154b89a9793334592de6b912acc24bc8fb0ba4e65952093cba23e1d1a1762)
    ensures QuadP(0x7f5154b89a9793334592de6b912acc24bc8fb0ba4e65952093cba23e1d1a1762, 8, 0x6a1de49a2f911c03abd5b7a5bb1452533e8dccd17acb0e45aa98e50d69b857c)
    ensures QuadP(0x6a1de49a2f911c03abd5b7a5bb1452533e8dccd17acb0e45aa98e50d69b857c, 8, 0x752379dde0daefd9fbf695281c26f66b233090acbd076280e9605188d008cd8d)
    ensures QuadP(0x752379dde0daefd9fbf695281c26f66b233090acbd076280e9605188d008cd8d, 8, 0x61c35c85fe9fbc3c72f8e6fc6b69b01d3b7c504b3df986e8a4658b4f999a353f)
    ensures QuadP(0x61c35c85fe9fbc3c72f8e6fc6b69b01d3b7c504b3df986e8a4658b4f999a353f, 8, 0x8f07602cd009e6ccabc1a25642a7dcd28374c01dd2e197131136915896c8a46)
    ensures QuadP(0x8f07602cd009e6ccabc1a25642a7dcd28374c01dd2e197131136915896c8a46, 8, 0x2e6f1f4a2e8f5b34aa3b7228f09e1766a4808c9410519959b8de91355e1e0aec)
    ensures QuadP(0x2e6f1f4a2e8f5b34aa3b7228f09e1766a4808c9410519959b8de91355e1e0aec, 8, 0x4a7092a9de3e8c50291cf15f0358e81d7698548c905decbf21a7b3dc53715ea3)
    ensures QuadP(0x4a7092a9de3e8c50291cf15f0358e81d7698548c905decbf21a7b3dc53715ea3, 8, 0x6fa832d70dc171f98a99ab0c0ae5c98fb58d4dffe0e132b63c6974141937d3a0)
  {}

  lemma PowerP_3()
    ensures At(0x7fffffffffffffffffffffffffffffffffffffffffffffffffffffffffffffed, 0x7fffffffffffffffffffffffffffffff, 0x6fa832d70dc171f98a99ab0c0ae5c98fb58d4dffe0e132b63c6974141937d3a0)
  {
    PowerP_2();
    PowerP_3_Residues();
    DigitsP();
  }

  lemma PowerP_4_Residues()
    ensures QuadP(0x6fa832d70dc171f98a99ab0c0ae5c98fb58d4dffe0e132b63c6974141937d3a0, 8, 0x9420d4302987a6d9df5a9828552135e8b06145acef936fa0ee45505f81b09b0)
    ensures QuadP(0x9420d4302987a6d9df5a9828552135e8b06145acef936fa0ee45505f81b09b0, 8, 0x41364f9981abaf7ed0cf4072d21de43ed919ce6b91f7ba87de1062a5bf9326cc)
    ensures QuadP(0x41364f9981abaf7ed0cf4072d21de43ed919ce6b91f7ba87de1062a5bf9326cc, 8, 0x44d61060e5a745fb450e39d473ed51a80622a81e57d908d7bc01aaca6e475c1b)
    ensures QuadP(0x44d61060e5a745fb450e39d473ed51a80622a81e57d908d7bc01aaca6e475c1b, 8, 0x58aba42e4ff91d81c01a58d4f77cd6fd004d7b444491f39399b41b1334e871ec)
    ensures QuadP(0x58aba42e4ff91d81c01a58d4f77cd6fd004d7b444491f39399b41b1334e871ec, 8, 0x2704c3e10709d430d475e31db14a20806722f9d1ce4ef6d074467e95893ea801)
    ensures QuadP(0x2704c3e10709d430d475e31db14a20806722f9d1ce4ef6d074467e95893ea801, 8, 0x3d83e64e5f66f0a7120cd19cc6bcc5e6d8ecfdbe6146b367f4404e8775565829)
    ensures QuadP(0x3d83e64e5f66f0a7120cd19cc6bcc5e6d8ecfdbe6146b367f4404e8775565829, 8, 0x140e2289d512d6d81eeb317076f7d13fa3d8b4514a126bfe8fb07a824c91f6f8)
    ensures QuadP(0x140e2289d512d6d81eeb317076f7d13fa3d8b4514a126bfe8fb07a824c91f6f8, 8, 0x3012e63b6c18b7c3693e92e9c3106233077b5e5441117fd5e86880466bee868)
    ensures QuadP(0x3012e63b6c18b7c3693e92e9c3106233077b5e5441117fd5e86880466bee868, 8, 0x7f34c30f9811bde34280bc47bd61af35613f0c620ceec536039a9aaed9a1e2e9)
    ensures QuadP(0x7f34c30f9811bde34280bc47bd61af35613f0c620ceec536039a9aaed9a1e2e9, 8, 0x65a33817ede08fc19cc044ef64107c7e45d457f2b921dcbe75f3805ba787fe84)
    ensures QuadP(0x65a33817ede08fc19cc044ef64107c7e45d457f2b921dcbe75f3805ba787fe84, 8, 0x4f0dc24d1280e22b5677e07e2e1692d65b38f34c0a3a455ed74391ad158804e9)
    ensures QuadP(0x4f0dc24d1280e22b5677e07e2e1692d65b38f34c0a3a455ed74391ad158804e9, 8, 0x1ebbd07684972aad18e11c8277bfd2a949e5d93766074f6e5cef38d06a75d9f4)
    ensures QuadP(0x1ebbd07684972aad18e11c8277bfd2a949e5d93766074f6e5cef38d06a75d9f4, 8, 0x7a6631b5f9818a68739c79c8612a2b317d6af2ada13adcf65d975a2d6d2ad627)
    ensures QuadP(0x7a6631b5f9818a68739c79c8612a2b317d6af2ada13adcf65d975a2d6d2ad627, 8, 0xf2f6a58dd46d615b52e1a27f23fc57c53d0882b735d7314e8207e4cbdf363fd)
    ensures QuadP(0xf2f6a58dd46d615b52e1a27f23fc57c53d0882b735d7314e8207e4cbdf363fd, 8, 0x33895213d1fbf607c00497f8917082690d5273fa4efeae50f1e22e13fe56b49c)
    ensures QuadP(0x33895213d1fbf607c00497f8917082690d5273fa4efeae50f1e22e13fe56b49c, 8, 0x3a57b027d1608f19b2d6e16b321802f37b9f3f91f6de950ff8599b550ce841c9)
  {}

  lemma PowerP_4()
    ensures At(0x7fffffffffffffffffffffffffffffffffffffffffffffffffffffffffffffed, 0x7fffffffffffffffffffffffffffffffffffffff, 0x3a57b027d1608f19b2d6e16b321802f37b9f3f91f6de950ff8599b550ce841c9)
  {
    PowerP_3();
    PowerP_4_Residues();
    DigitsP();
  }

  lemma PowerP_5_Residues()
    ensures QuadP(0x3a57b027d1608f19b2d6e16b321802f37b9f3f91f6de950ff8599b550ce841c9, 8, 0x3ac4cdd312d5cbea8b140f7a382ccb7ac30a7d6bcc8bbc4f968160021d6be731)
    ensures QuadP(0x3ac4cdd312d5cbea8b140f7a382ccb7ac30a7d6bcc8bbc4f968160021d6be731, 8, 0xfc82279aabcd068314b4875883a19654e0cb4f8bdadafa7b711fd9cd445cf8b)
    ensures QuadP(0xfc82279aabcd068314b4875883a19654e0cb4f8bdadafa7b711fd9cd445cf8b, 8, 0x3dc2fcec5787389c670713cb5c306627978b8b27aa31a5483214499f37b1b75b)
    ensures QuadP(0x3dc2fcec5787389c670713cb5c306627978b8b27aa31a5483214499f37b1b75b, 8, 0x7fef81a7d01be5db858ac1e0c8d5efc4ecd03a62af63472a8cd83a1f81be6ed0)
    ensures QuadP(0x7fef81a7d01be5db858ac1e0c8d5efc4ecd03a62af63472a8cd83a1f81be6ed0, 8, 0x22acf76b3be7a6899e078d568e1e78bf270d0142ac99d03a7b61b976edcced4b)
    ensures QuadP(0x22acf76b3be7a6899e078d568e1e78bf270d0142ac99d03a7b61b976edcced4b, 8, 0x167eb50db4312cbccb615f9f22c396946da5645d8d40065bc39431fb4bb2646c)
    ensures QuadP(0x167eb50db4312cbccb615f9f22c396946da5645d8d40065bc39431fb4bb2646c, 8, 0x1f038713c67d2518bcc84692fe012decb92b42b7926d186e422a34dc39eede93)
    ensures QuadP(0x1f038713c67d2518bcc84692fe012decb92b42b7926d186e422a34dc39eede93, 8, 0x24593c1ede8c9cebc7bde5f51882f592f3f9fe654fad85578b2ffb0ed50975a8)
    ensures QuadP(0x24593c1ede8c9cebc7bde5f51882f592f3f9fe654fad85578b2ffb0ed50975a8, 8, 0x1837a6306707fe8664adcd9044f21bfac2d28b059f26210909f9dd1deaae3ab)
    ensures QuadP(0x1837a6306707fe8664adcd9044f21bfac2d28b059f26210909f9dd1deaae3ab, 8, 0x5b7fdc14c006017b416da389d0201482bbd63a94731ec0572f8c9789ff56b4e7)
    ensures QuadP(0x5b7fdc14c006017b416da389d0201482bbd63a94731ec0572f8c9789ff56b4e7, 8, 0x41d10fb133fdc1f2125655bb0b3445b2530fc558333458971572934bcbca0338)
    ensures QuadP(0x41d10fb133fdc1f2125655bb0b3445b2530fc558333458971572934bcbca0338, 8, 0x1c6b1de7d692a61dd9ea3bb2c7f5afdf0e7f0f2d4121cd69909090ff7691732a)
    ensures QuadP(0x1c6b1de7d692a61dd9ea3bb2c7f5afdf0e7f0f2d4121cd69909090ff7691732a, 8, 0x51d223e61ac4eb6998d9771dc72c137e771bbfa62066c3693d01bc4af72df030)
    ensures QuadP(0x51d223e61ac4eb6998d9771dc72c137e771bbfa62066c3693d01bc4af72df030, 8, 0x4357ed4a9250b4706959c7a5f7861c03d9c0892545c2be1841a72cca33181026)
    ensures QuadP(0x4357ed4a9250b4706959c7a5f7861c03d9c0892545c2be1841a72cca33181026, 8, 0x359372836d876d8cf11dcad4311505f91463ff7e3760328a11dfdbd491a9f52c)
    ensures QuadP(0x359372836d876d8cf11dcad4311505f91463ff7e3760328a11dfdbd491a9f52c, 8, 0x76fdb306a2b03a98b631b569ff0a668731dab5fd49c13f1de50b3b021a2e2fb6)
  {}

  lemma PowerP_5()
    ensures At(0x7fffffffffffffffffffffffffffffffffffffffffffffffffffffffffffffed, 0x7fffffffffffffffffffffffffffffffffffffffffffffff, 0x76fdb306a2b03a98b631b569ff0a668731dab5fd49c13f1de50b3b021a2e2fb6)
  {
    PowerP_4();
    PowerP_5_Residues();
    DigitsP();
  }

  lemma PowerP_6_Residues()
    ensures QuadP(0x76fdb306a2b03a98b631b569ff0a668731dab5fd49c13f1de50b3b021a2e2fb6, 8, 0x710082c4fbeeaec768b038f494b75ab8441daad98ce5d0be69893a78b35c2bd1)
    ensures QuadP(0x710082c4fbeeaec768b038f494b75ab8441daad98ce5d0be69893a78b35c2bd1, 8, 0x501800f54892d55acce34cad3ea1ecd34ad0d93a146792b88493f0f7877d17a2)
    ensures QuadP(0x501800f54892d55acce34cad3ea1ecd34ad0d93a146792b88493f0f7877d17a2, 8, 0x648c665b35748c2785c9fbb33cd925375ee04d74845fa2923ce309776edc5500)
    ensures QuadP(0x648c665b35748c2785c9fbb33cd925375ee04d74845fa2923ce309776edc5500, 8, 0x6efc714204f46ad9d469f6d7584edc09d0a44a3fde49f7ecfd2c4e134bd30af8)
    ensures QuadP(0x6efc714204f46ad9d469f6d7584edc09d0a44a3fde49f7ecfd2c4e134bd30af8, 8, 0x1871c6e332a5196c95e2e5ece5202f0e3e487500e26ea89098ad6bb20815283f)
    ensures QuadP(0x1871c6e332a5196c95e2e5ece5202f0e3e487500e26ea89098ad6bb20815283f, 8, 0x56a07718b3fd3192ac8020bbd4b54f4df397d79ef160a42155ada0e4fa5a712f)
    ensures QuadP(0x56a07718b3fd3192ac8020bbd4b54f4df397d79ef160a42155ada0e4fa5a712f, 8, 0x236909bfd1f9b1b36201fbf7f2d5b32973dfa0f7f371f063d9abe52c1af57f25)
    ensures QuadP(0x236909bfd1f9b1b36201fbf7f2d5b32973dfa0f7f371f063d9abe52c1af57f25, 8, 0x5cd15c90e265bbca9f47a190c451de7df4766e3cdbe0477c38edfef94db0585)
    ensures QuadP(0x5cd15c90e265bbca9f47a190c451de7df4766e3cdbe0477c38edfef94db0585, 8, 0x36c8d57fe59cf5b50131893beff5f19a251093de6f438d8e769dbe66d5998e86)
    ensures QuadP(0x36c8d57fe59cf5b50131893beff5f19a251093de6f438d8e769dbe66d5998e86, 8, 0x7e31dcdea8843195c937622831b294ef2d7d252087fe190a58f2fcd28b830cf4)
    ensures QuadP(0x7e31dcdea8843195c937622831b294ef2d7d252087fe190a58f2fcd28b830cf4, 8, 0x25e75686e9d058b44466fa9da9f7243791a29d901f525e7fa5764f717d9f2bea)
    ensures QuadP(0x25e75686e9d058b44466fa9da9f7243791a29d901f525e7fa5764f717d9f2bea, 8, 0x794c22ee8022654e58f5706e8a04cbfbe9de24a9846a8d69886836cd82670d3e)
    ensures QuadP(0x794c22ee8022654e58f5706e8a04cbfbe9de24a9846a8d69886836cd82670d3e, 8, 0x5a0070bbdbaec550c34d7320f42ef3be93e9e22958c18d4119cf570add2717b7)
    ensures QuadP(0x5a0070bbdbaec550c34d7320f42ef3be93e9e22958c18d4119cf570add2717b7, 8, 0x14368d620af9e06ea7258aad2cf532c97a181f3b9e5b997fc24a56ce9d0762ec)
    ensures QuadP(0x14368d620af9e06ea7258aad2cf532c97a181f3b9e5b997fc24a56ce9d0762ec, 8, 0x34b0237582fc32db8566225e50136ee4c161cbcfd89284ffe369393c3e6d952c)
    ensures QuadP(0x34b0237582fc32db8566225e50136ee4c161cbcfd89284ffe369393c3e6d952c, 8, 0x2f20cd0b61a8f9d5f54493ef1a9bf3572691f44537768dc0394d1a9da50a5181)
  {}

  lemma PowerP_6()
    ensures At(0x7fffffffffffffffffffffffffffffffffffffffffffffffffffffffffffffed, 0x7fffffffffffffffffffffffffffffffffffffffffffffffffffffff, 0x2f20cd0b61a8f9d5f54493ef1a9bf3572691f44537768dc0394d1a9da50a5181)
  {
    PowerP_5();
    PowerP_6_Residues();
    DigitsP();
  }

  lemma PowerP_7_Residues()
    ensures QuadP(0x2f20cd0b61a8f9d5f54493ef1a9bf3572691f44537768dc0394d1a9da50a5181, 8, 0x747d8bb9c7f2923092d6c754ca769a7efecf88b29093813f9d5db39b09c9d62d)
    ensures QuadP(0x747d8bb9c7f2923092d6c754ca769a7efecf88b29093813f9d5db39b09c9d62d, 8, 0x5f3d73b11382bbf3bc19500498e41d4837b4f764c49f57ea2468b4039cf497)
    ensures QuadP(0x5f3d73b11382bbf3bc19500498e41d4837b4f764c49f57ea2468b4039cf497, 8, 0x2b1e68bccd8700dadc428a2a003bd709cdc40f60fe24ce63240205b8e4603beb)
    ensures QuadP(0x2b1e68bccd8700dadc428a2a003bd709cdc40f60fe24ce63240205b8e4603beb, 8, 0x484538b08925867f8331377131cb76ee94aa4bb0b07d610d78b6a5fc9d6ddfec)
    ensures QuadP(0x484538b08925867f8331377131cb76ee94aa4bb0b07d610d78b6a5fc9d6ddfec, 8, 0x48cbdcee84fc53ac5e5ec953add55b257eb1f2e0b0859fd7da3242f4b58f4a7)
    ensures QuadP(0x48cbdcee84fc53ac5e5ec953add55b257eb1f2e0b0859fd7da3242f4b58f4a7, 8, 0x5e1ee569c6f05795cf0ef3a6086b1acf02d658e5238520e50defd5175652bc86)
    ensures QuadP(0x5e1ee569c6f05795cf0ef3a6086b1acf02d658e5238520e50defd5175652bc86, 8, 0x4ae8ab606b45876d92567cbc10aac8f0ff97fa18606940a1d04c884af5795b39)
    ensures QuadP(0x4ae8ab606b45876d92567cbc10aac8f0ff97fa18606940a1d04c884af5795b39, 8, 0x5f8d3e6839da7774898646dab878c348b669e49b6959a13450d0ba09f5f12cf3)
    ensures QuadP(0x5f8d3e6839da7774898646dab878c348b669e49b6959a13450d0ba09f5f12cf3, 8, 0x5305614711bd445a0662d9534326de5c2d2e1a19210bd48a1981f8077e7f86e8)
    ensures QuadP(0x5305614711bd445a0662d9534326de5c2d2e1a19210bd48a1981f8077e7f86e8, 8, 0x8779312ab35c954c3471c636fa99f2f0dae1343d935685a3a9c51f67b550086)
    ensures QuadP(0x8779312ab35c954c3471c636fa99f2f0dae1343d935685a3a9c51f67b550086, 8, 0x4318c76c03527f54180d82e2b2c4d3840720d138a124a57cf83da4a363527785)
    ensures QuadP(0x4318c76c03527f54180d82e2b2c4d3840720d138a124a57cf83da4a363527785, 8, 0x487c219ffb57031e21906f937a56ad0727008f9add2e939d7868beb22bf4d65b)
    ensures QuadP(0x487c219ffb57031e21906f937a56ad0727008f9add2e939d7868beb22bf4d65b, 8, 0x394910df33187c3135f8ed9c8e2f9ca4b5e34655773473ddfc2d95fe064d642d)
    ensures QuadP(0x394910df33187c3135f8ed9c8e2f9ca4b5e34655773473ddfc2d95fe064d642d, 4, 0x32c3972e911d2f7bb05f4b8c6db60e0038687a672696cc25eecf94076fb5c22b)
    ensures QuadP(0x32c3972e911d2f7bb05f4b8c6db60e0038687a672696cc25eecf94076fb5c22b, 8, 0x2b8324804fc1df0b2b4d00993dfbd7a72f431806ad2fe478c4ee1b274a0ea0b0)
    ensures QuadP(0x2b8324804fc1df0b2b4d00993dfbd7a72f431806ad2fe478c4ee1b274a0ea0b0, 1, 0x1)
  {}

  lemma PowerP_7()
    ensures At(0x7fffffffffffffffffffffffffffffffffffffffffffffffffffffffffffffed, 0x7fffffffffffffffffffffffffffffffffffffffffffffffffffffffffffffec, 0x1)
  {
    PowerP_6();
    PowerP_7_Residues();
    DigitsP();
  }

  lemma RootP_0_Residues()
    ensures QuadP(0x1, 4, 0x4)
    ensures QuadP(0x4, 8, 0x800)
    ensures QuadP(0x800, 8, 0x800000000000)
    ensures QuadP(0x800000000000, 4, 0x400000000000000000000000000000000000000000000000)
    ensures QuadP(0x400000000000000000000000000000000000000000000000, 8, 0x20000000000000000000000000000000000000000000000000000000000006ae)
    ensures QuadP(0x20000000000000000000000000000000000000000000000000000000000006ae, 2, 0x2b000000000000000000000000000000000000000000000000000fb9ff130dce)
    ensures QuadP(0x2b000000000000000000000000000000000000000000000000000fb9ff130dce, 8, 0x162216c0000000000007778a91c0dd372b6facff37ea5ac6606bd318fa0e0f79)
    ensures QuadP(0x162216c0000000000007778a91c0dd372b6facff37ea5ac6606bd318fa0e0f79, 1, 0x1d804e3bfbc1c5189c61a656cc00905d55b7f22ae1771e1690048c93d6e78b58)
    ensures QuadP(0x1d804e3bfbc1c5189c61a656cc00905d55b7f22ae1771e1690048c93d6e78b58, 2, 0xf10bda72989665e25b2f91d26cbc5d4ab0ae74eabcd6acd2f1164aa01ba7316)
    ensures QuadP(0xf10bda72989665e25b2f91d26cbc5d4ab0ae74eabcd6acd2f1164aa01ba7316, 1, 0xf1ba0c491eeef83c49fc1b744331bb096d4893142c187431f7b03e61a75a49)
  {}

  lemma RootP_0()
    ensures At(0x7fffffffffffffffffffffffffffffffffffffffffffffffffffffffffffffed, 0xbedc4, 0xf1ba0c491eeef83c49fc1b744331bb096d4893142c187431f7b03e61a75a49)
  {
    Start(0x7fffffffffffffffffffffffffffffffffffffffffffffffffffffffffffffed);
    RootP_0_Residues();
    DigitsP();
  }

  lemma IsPrimeP()
    ensures IsPrime(P)
  {
    IsPrimeQ1();
    PowerP_7();
    RootP_0();
    CongIntro(0x7acaff384090e983b641a51e1df0807078e467d06ab8164555f0f7fd51653bdc * (0xf1ba0c491eeef83c49fc1b744331bb096d4893142c187431f7b03e61a75a49 - 1), 1, 0x7fffffffffffffffffffffffffffffffffffffffffffffffffffffffffffffed, 0xe7e4af4bf4ae51c6996e39a9badd1eb5671824129a6d5e45ca50be7abc337b);
    Criterion(0x7fffffffffffffffffffffffffffffffffffffffffffffffffffffffffffffed, 0xabaf8c6b094fd0f32c2ccabab864dbecd99144679c1adf804898fb2042b, 0xbedc4, 0xf1ba0c491eeef83c49fc1b744331bb096d4893142c187431f7b03e61a75a49, 0x7acaff384090e983b641a51e1df0807078e467d06ab8164555f0f7fd51653bdc);
  }
}
