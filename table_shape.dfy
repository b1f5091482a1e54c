/**
 * The closed form behind the default size-class table: entry i holds
 * ClassUnits(i) granules of 16 bytes. Entries 1..64 step by one granule;
 * from entry 65 on, entry 4m + s + 41 (m >= 6, s < 4) holds
 * 2^(m-2) * (5 + s) granules, four classes per power of two. This is the
 * layout the bit arithmetic of get_size_class relies on.
 */
module TableShape {
  import opened Align
  import opened SizeClasses

  /** Granules per block of entry i under the closed form. */
  function ClassUnits(i: nat): (u: nat)
    ensures u >= 1
  {
    if i == 0 then 1
    else if i <= 64 then i
    else
      // octave m = (i - 41) / 4 >= 6, step s = (i - 41) % 4: 2^(m-2) * (5 + s)
      var p := Pow2((i - 41) / 4 - 2);
      match (i - 41) % 4
      case 0 => 5 * p
      case 1 => 6 * p
      case 2 => 7 * p
      case _ => 8 * p
  }

  /** The powers of two the octave entries are built from. */
  lemma Pow2Values()
    ensures Pow2(0) == 1 && Pow2(1) == 2 && Pow2(2) == 4 && Pow2(3) == 8
    ensures Pow2(4) == 16 && Pow2(5) == 32 && Pow2(6) == 64 && Pow2(7) == 128
    ensures Pow2(8) == 256 && Pow2(9) == 512 && Pow2(10) == 1024 && Pow2(11) == 2048
    ensures Pow2(12) == 4096 && Pow2(13) == 8192 && Pow2(14) == 16384
    ensures Pow2(15) == 32768 && Pow2(16) == 65536
  {
    assert Pow2(0) == 1;
    assert Pow2(1) == 2;
    assert Pow2(2) == 4;
    assert Pow2(3) == 8;
    assert Pow2(4) == 16;
    assert Pow2(5) == 32;
    assert Pow2(6) == 64;
    assert Pow2(7) == 128;
    assert Pow2(8) == 256;
    assert Pow2(9) == 512;
    assert Pow2(10) == 1024;
    assert Pow2(11) == 2048;
    assert Pow2(12) == 4096;
    assert Pow2(13) == 8192;
    assert Pow2(14) == 16384;
    assert Pow2(15) == 32768;
    assert Pow2(16) == 65536;
  }

  // Each literal piece of the initialiser agrees with ClassUnits, checked a
  // few entries at a time.

  lemma SmallExactLowShape0()
    ensures forall j | 0 <= j < 6 :: SmallExactLow[j].blockSz == SMALL_GRANULARITY * ClassUnits(j)
  {
    forall j | 0 <= j < 6
      ensures SmallExactLow[j].blockSz == SMALL_GRANULARITY * ClassUnits(j)
    {
      if j < 3 {
        if j < 1 {
          assert SmallExactLow[0].blockSz == SMALL_GRANULARITY * ClassUnits(0);
        } else {
          if j < 2 {
            assert SmallExactLow[1].blockSz == SMALL_GRANULARITY * ClassUnits(1);
          } else {
            assert SmallExactLow[2].blockSz == SMALL_GRANULARITY * ClassUnits(2);
          }
        }
      } else {
        if j < 4 {
          assert SmallExactLow[3].blockSz == SMALL_GRANULARITY * ClassUnits(3);
        } else {
          if j < 5 {
            assert SmallExactLow[4].blockSz == SMALL_GRANULARITY * ClassUnits(4);
          } else {
            assert SmallExactLow[5].blockSz == SMALL_GRANULARITY * ClassUnits(5);
          }
        }
      }
    }
  }

  lemma SmallExactLowShape1()
    ensures forall j | 6 <= j < 13 :: SmallExactLow[j].blockSz == SMALL_GRANULARITY * ClassUnits(j)
  {
    forall j | 6 <= j < 13
      ensures SmallExactLow[j].blockSz == SMALL_GRANULARITY * ClassUnits(j)
    {
      if j < 9 {
        if j < 7 {
          assert SmallExactLow[6].blockSz == SMALL_GRANULARITY * ClassUnits(6);
        } else {
          if j < 8 {
            assert SmallExactLow[7].blockSz == SMALL_GRANULARITY * ClassUnits(7);
          } else {
            assert SmallExactLow[8].blockSz == SMALL_GRANULARITY * ClassUnits(8);
          }
        }
      } else {
        if j < 11 {
          if j < 10 {
            assert SmallExactLow[9].blockSz == SMALL_GRANULARITY * ClassUnits(9);
          } else {
            assert SmallExactLow[10].blockSz == SMALL_GRANULARITY * ClassUnits(10);
          }
        } else {
          if j < 12 {
            assert SmallExactLow[11].blockSz == SMALL_GRANULARITY * ClassUnits(11);
          } else {
            assert SmallExactLow[12].blockSz == SMALL_GRANULARITY * ClassUnits(12);
          }
        }
      }
    }
  }

  lemma SmallExactLowShape2()
    ensures forall j | 13 <= j < 19 :: SmallExactLow[j].blockSz == SMALL_GRANULARITY * ClassUnits(j)
  {
    forall j | 13 <= j < 19
      ensures SmallExactLow[j].blockSz == SMALL_GRANULARITY * ClassUnits(j)
    {
      if j < 16 {
        if j < 14 {
          assert SmallExactLow[13].blockSz == SMALL_GRANULARITY * ClassUnits(13);
        } else {
          if j < 15 {
            assert SmallExactLow[14].blockSz == SMALL_GRANULARITY * ClassUnits(14);
          } else {
            assert SmallExactLow[15].blockSz == SMALL_GRANULARITY * ClassUnits(15);
          }
        }
      } else {
        if j < 17 {
          assert SmallExactLow[16].blockSz == SMALL_GRANULARITY * ClassUnits(16);
        } else {
          if j < 18 {
            assert SmallExactLow[17].blockSz == SMALL_GRANULARITY * ClassUnits(17);
          } else {
            assert SmallExactLow[18].blockSz == SMALL_GRANULARITY * ClassUnits(18);
          }
        }
      }
    }
  }

  lemma SmallExactLowShape3()
    ensures forall j | 19 <= j < 26 :: SmallExactLow[j].blockSz == SMALL_GRANULARITY * ClassUnits(j)
  {
    forall j | 19 <= j < 26
      ensures SmallExactLow[j].blockSz == SMALL_GRANULARITY * ClassUnits(j)
    {
      if j < 22 {
        if j < 20 {
          assert SmallExactLow[19].blockSz == SMALL_GRANULARITY * ClassUnits(19);
        } else {
          if j < 21 {
            assert SmallExactLow[20].blockSz == SMALL_GRANULARITY * ClassUnits(20);
          } else {
            assert SmallExactLow[21].blockSz == SMALL_GRANULARITY * ClassUnits(21);
          }
        }
      } else {
        if j < 24 {
          if j < 23 {
            assert SmallExactLow[22].blockSz == SMALL_GRANULARITY * ClassUnits(22);
          } else {
            assert SmallExactLow[23].blockSz == SMALL_GRANULARITY * ClassUnits(23);
          }
        } else {
          if j < 25 {
            assert SmallExactLow[24].blockSz == SMALL_GRANULARITY * ClassUnits(24);
          } else {
            assert SmallExactLow[25].blockSz == SMALL_GRANULARITY * ClassUnits(25);
          }
        }
      }
    }
  }

  lemma SmallExactLowShape4()
    ensures forall j | 26 <= j < 33 :: SmallExactLow[j].blockSz == SMALL_GRANULARITY * ClassUnits(j)
  {
    forall j | 26 <= j < 33
      ensures SmallExactLow[j].blockSz == SMALL_GRANULARITY * ClassUnits(j)
    {
      if j < 29 {
        if j < 27 {
          assert SmallExactLow[26].blockSz == SMALL_GRANULARITY * ClassUnits(26);
        } else {
          if j < 28 {
            assert SmallExactLow[27].blockSz == SMALL_GRANULARITY * ClassUnits(27);
          } else {
            assert SmallExactLow[28].blockSz == SMALL_GRANULARITY * ClassUnits(28);
          }
        }
      } else {
        if j < 31 {
          if j < 30 {
            assert SmallExactLow[29].blockSz == SMALL_GRANULARITY * ClassUnits(29);
          } else {
            assert SmallExactLow[30].blockSz == SMALL_GRANULARITY * ClassUnits(30);
          }
        } else {
          if j < 32 {
            assert SmallExactLow[31].blockSz == SMALL_GRANULARITY * ClassUnits(31);
          } else {
            assert SmallExactLow[32].blockSz == SMALL_GRANULARITY * ClassUnits(32);
          }
        }
      }
    }
  }

  lemma SmallExactHighShape0()
    ensures forall j | 0 <= j < 8 :: SmallExactHigh[j].blockSz == SMALL_GRANULARITY * ClassUnits(33 + j)
  {
    forall j | 0 <= j < 8
      ensures SmallExactHigh[j].blockSz == SMALL_GRANULARITY * ClassUnits(33 + j)
    {
      if j < 4 {
        if j < 2 {
          if j < 1 {
            assert SmallExactHigh[0].blockSz == SMALL_GRANULARITY * ClassUnits(33);
          } else {
            assert SmallExactHigh[1].blockSz == SMALL_GRANULARITY * ClassUnits(34);
          }
        } else {
          if j < 3 {
            assert SmallExactHigh[2].blockSz == SMALL_GRANULARITY * ClassUnits(35);
          } else {
            assert SmallExactHigh[3].blockSz == SMALL_GRANULARITY * ClassUnits(36);
          }
        }
      } else {
        if j < 6 {
          if j < 5 {
            assert SmallExactHigh[4].blockSz == SMALL_GRANULARITY * ClassUnits(37);
          } else {
            assert SmallExactHigh[5].blockSz == SMALL_GRANULARITY * ClassUnits(38);
          }
        } else {
          if j < 7 {
            assert SmallExactHigh[6].blockSz == SMALL_GRANULARITY * ClassUnits(39);
          } else {
            assert SmallExactHigh[7].blockSz == SMALL_GRANULARITY * ClassUnits(40);
          }
        }
      }
    }
  }

  lemma SmallExactHighShape1()
    ensures forall j | 8 <= j < 16 :: SmallExactHigh[j].blockSz == SMALL_GRANULARITY * ClassUnits(33 + j)
  {
    forall j | 8 <= j < 16
      ensures SmallExactHigh[j].blockSz == SMALL_GRANULARITY * ClassUnits(33 + j)
    {
      if j < 12 {
        if j < 10 {
          if j < 9 {
            assert SmallExactHigh[8].blockSz == SMALL_GRANULARITY * ClassUnits(41);
          } else {
            assert SmallExactHigh[9].blockSz == SMALL_GRANULARITY * ClassUnits(42);
          }
        } else {
          if j < 11 {
            assert SmallExactHigh[10].blockSz == SMALL_GRANULARITY * ClassUnits(43);
          } else {
            assert SmallExactHigh[11].blockSz == SMALL_GRANULARITY * ClassUnits(44);
          }
        }
      } else {
        if j < 14 {
          if j < 13 {
            assert SmallExactHigh[12].blockSz == SMALL_GRANULARITY * ClassUnits(45);
          } else {
            assert SmallExactHigh[13].blockSz == SMALL_GRANULARITY * ClassUnits(46);
          }
        } else {
          if j < 15 {
            assert SmallExactHigh[14].blockSz == SMALL_GRANULARITY * ClassUnits(47);
          } else {
            assert SmallExactHigh[15].blockSz == SMALL_GRANULARITY * ClassUnits(48);
          }
        }
      }
    }
  }

  lemma SmallExactHighShape2()
    ensures forall j | 16 <= j < 24 :: SmallExactHigh[j].blockSz == SMALL_GRANULARITY * ClassUnits(33 + j)
  {
    forall j | 16 <= j < 24
      ensures SmallExactHigh[j].blockSz == SMALL_GRANULARITY * ClassUnits(33 + j)
    {
      if j < 20 {
        if j < 18 {
          if j < 17 {
            assert SmallExactHigh[16].blockSz == SMALL_GRANULARITY * ClassUnits(49);
          } else {
            assert SmallExactHigh[17].blockSz == SMALL_GRANULARITY * ClassUnits(50);
          }
        } else {
          if j < 19 {
            assert SmallExactHigh[18].blockSz == SMALL_GRANULARITY * ClassUnits(51);
          } else {
            assert SmallExactHigh[19].blockSz == SMALL_GRANULARITY * ClassUnits(52);
          }
        }
      } else {
        if j < 22 {
          if j < 21 {
            assert SmallExactHigh[20].blockSz == SMALL_GRANULARITY * ClassUnits(53);
          } else {
            assert SmallExactHigh[21].blockSz == SMALL_GRANULARITY * ClassUnits(54);
          }
        } else {
          if j < 23 {
            assert SmallExactHigh[22].blockSz == SMALL_GRANULARITY * ClassUnits(55);
          } else {
            assert SmallExactHigh[23].blockSz == SMALL_GRANULARITY * ClassUnits(56);
          }
        }
      }
    }
  }

  lemma SmallExactHighShape3()
    ensures forall j | 24 <= j < 32 :: SmallExactHigh[j].blockSz == SMALL_GRANULARITY * ClassUnits(33 + j)
  {
    forall j | 24 <= j < 32
      ensures SmallExactHigh[j].blockSz == SMALL_GRANULARITY * ClassUnits(33 + j)
    {
      if j < 28 {
        if j < 26 {
          if j < 25 {
            assert SmallExactHigh[24].blockSz == SMALL_GRANULARITY * ClassUnits(57);
          } else {
            assert SmallExactHigh[25].blockSz == SMALL_GRANULARITY * ClassUnits(58);
          }
        } else {
          if j < 27 {
            assert SmallExactHigh[26].blockSz == SMALL_GRANULARITY * ClassUnits(59);
          } else {
            assert SmallExactHigh[27].blockSz == SMALL_GRANULARITY * ClassUnits(60);
          }
        }
      } else {
        if j < 30 {
          if j < 29 {
            assert SmallExactHigh[28].blockSz == SMALL_GRANULARITY * ClassUnits(61);
          } else {
            assert SmallExactHigh[29].blockSz == SMALL_GRANULARITY * ClassUnits(62);
          }
        } else {
          if j < 31 {
            assert SmallExactHigh[30].blockSz == SMALL_GRANULARITY * ClassUnits(63);
          } else {
            assert SmallExactHigh[31].blockSz == SMALL_GRANULARITY * ClassUnits(64);
          }
        }
      }
    }
  }

  lemma SmallOctavesOctave6()
    ensures forall j | 0 <= j < 4 :: SmallOctaves[j].blockSz == SMALL_GRANULARITY * ClassUnits(65 + j)
  {
    assert Pow2(4) == 16;
    forall j | 0 <= j < 4
      ensures SmallOctaves[j].blockSz == SMALL_GRANULARITY * ClassUnits(65 + j)
    {
      if j < 2 {
        if j < 1 {
          assert SmallOctaves[0].blockSz == SMALL_GRANULARITY * ClassUnits(65);
        } else {
          assert SmallOctaves[1].blockSz == SMALL_GRANULARITY * ClassUnits(66);
        }
      } else {
        if j < 3 {
          assert SmallOctaves[2].blockSz == SMALL_GRANULARITY * ClassUnits(67);
        } else {
          assert SmallOctaves[3].blockSz == SMALL_GRANULARITY * ClassUnits(68);
        }
      }
    }
  }

  lemma SmallOctavesOctave7()
    ensures forall j | 4 <= j < 8 :: SmallOctaves[j].blockSz == SMALL_GRANULARITY * ClassUnits(65 + j)
  {
    assert Pow2(5) == 32;
    forall j | 4 <= j < 8
      ensures SmallOctaves[j].blockSz == SMALL_GRANULARITY * ClassUnits(65 + j)
    {
      if j < 6 {
        if j < 5 {
          assert SmallOctaves[4].blockSz == SMALL_GRANULARITY * ClassUnits(69);
        } else {
          assert SmallOctaves[5].blockSz == SMALL_GRANULARITY * ClassUnits(70);
        }
      } else {
        if j < 7 {
          assert SmallOctaves[6].blockSz == SMALL_GRANULARITY * ClassUnits(71);
        } else {
          assert SmallOctaves[7].blockSz == SMALL_GRANULARITY * ClassUnits(72);
        }
      }
    }
  }

  lemma MediumOctavesOctave8()
    ensures forall j | 0 <= j < 4 :: MediumOctaves[j].blockSz == SMALL_GRANULARITY * ClassUnits(73 + j)
  {
    assert Pow2(6) == 64;
    forall j | 0 <= j < 4
      ensures MediumOctaves[j].blockSz == SMALL_GRANULARITY * ClassUnits(73 + j)
    {
      if j < 2 {
        if j < 1 {
          assert MediumOctaves[0].blockSz == SMALL_GRANULARITY * ClassUnits(73);
        } else {
          assert MediumOctaves[1].blockSz == SMALL_GRANULARITY * ClassUnits(74);
        }
      } else {
        if j < 3 {
          assert MediumOctaves[2].blockSz == SMALL_GRANULARITY * ClassUnits(75);
        } else {
          assert MediumOctaves[3].blockSz == SMALL_GRANULARITY * ClassUnits(76);
        }
      }
    }
  }

  lemma MediumOctavesOctave9()
    ensures forall j | 4 <= j < 8 :: MediumOctaves[j].blockSz == SMALL_GRANULARITY * ClassUnits(73 + j)
  {
    assert Pow2(7) == 128;
    forall j | 4 <= j < 8
      ensures MediumOctaves[j].blockSz == SMALL_GRANULARITY * ClassUnits(73 + j)
    {
      if j < 6 {
        if j < 5 {
          assert MediumOctaves[4].blockSz == SMALL_GRANULARITY * ClassUnits(77);
        } else {
          assert MediumOctaves[5].blockSz == SMALL_GRANULARITY * ClassUnits(78);
        }
      } else {
        if j < 7 {
          assert MediumOctaves[6].blockSz == SMALL_GRANULARITY * ClassUnits(79);
        } else {
          assert MediumOctaves[7].blockSz == SMALL_GRANULARITY * ClassUnits(80);
        }
      }
    }
  }

  lemma MediumOctavesOctave10()
    ensures forall j | 8 <= j < 12 :: MediumOctaves[j].blockSz == SMALL_GRANULARITY * ClassUnits(73 + j)
  {
    assert Pow2(8) == 256;
    forall j | 8 <= j < 12
      ensures MediumOctaves[j].blockSz == SMALL_GRANULARITY * ClassUnits(73 + j)
    {
      if j < 10 {
        if j < 9 {
          assert MediumOctaves[8].blockSz == SMALL_GRANULARITY * ClassUnits(81);
        } else {
          assert MediumOctaves[9].blockSz == SMALL_GRANULARITY * ClassUnits(82);
        }
      } else {
        if j < 11 {
          assert MediumOctaves[10].blockSz == SMALL_GRANULARITY * ClassUnits(83);
        } else {
          assert MediumOctaves[11].blockSz == SMALL_GRANULARITY * ClassUnits(84);
        }
      }
    }
  }

  lemma MediumOctavesOctave11()
    ensures forall j | 12 <= j < 16 :: MediumOctaves[j].blockSz == SMALL_GRANULARITY * ClassUnits(73 + j)
  {
    assert Pow2(9) == 512;
    forall j | 12 <= j < 16
      ensures MediumOctaves[j].blockSz == SMALL_GRANULARITY * ClassUnits(73 + j)
    {
      if j < 14 {
        if j < 13 {
          assert MediumOctaves[12].blockSz == SMALL_GRANULARITY * ClassUnits(85);
        } else {
          assert MediumOctaves[13].blockSz == SMALL_GRANULARITY * ClassUnits(86);
        }
      } else {
        if j < 15 {
          assert MediumOctaves[14].blockSz == SMALL_GRANULARITY * ClassUnits(87);
        } else {
          assert MediumOctaves[15].blockSz == SMALL_GRANULARITY * ClassUnits(88);
        }
      }
    }
  }

  lemma MediumOctavesOctave12()
    ensures forall j | 16 <= j < 20 :: MediumOctaves[j].blockSz == SMALL_GRANULARITY * ClassUnits(73 + j)
  {
    assert Pow2(10) == 1024;
    forall j | 16 <= j < 20
      ensures MediumOctaves[j].blockSz == SMALL_GRANULARITY * ClassUnits(73 + j)
    {
      if j < 18 {
        if j < 17 {
          assert MediumOctaves[16].blockSz == SMALL_GRANULARITY * ClassUnits(89);
        } else {
          assert MediumOctaves[17].blockSz == SMALL_GRANULARITY * ClassUnits(90);
        }
      } else {
        if j < 19 {
          assert MediumOctaves[18].blockSz == SMALL_GRANULARITY * ClassUnits(91);
        } else {
          assert MediumOctaves[19].blockSz == SMALL_GRANULARITY * ClassUnits(92);
        }
      }
    }
  }

  lemma MediumOctavesOctave13()
    ensures forall j | 20 <= j < 24 :: MediumOctaves[j].blockSz == SMALL_GRANULARITY * ClassUnits(73 + j)
  {
    assert Pow2(11) == 2048;
    forall j | 20 <= j < 24
      ensures MediumOctaves[j].blockSz == SMALL_GRANULARITY * ClassUnits(73 + j)
    {
      if j < 22 {
        if j < 21 {
          assert MediumOctaves[20].blockSz == SMALL_GRANULARITY * ClassUnits(93);
        } else {
          assert MediumOctaves[21].blockSz == SMALL_GRANULARITY * ClassUnits(94);
        }
      } else {
        if j < 23 {
          assert MediumOctaves[22].blockSz == SMALL_GRANULARITY * ClassUnits(95);
        } else {
          assert MediumOctaves[23].blockSz == SMALL_GRANULARITY * ClassUnits(96);
        }
      }
    }
  }

  lemma LargeOctavesOctave14()
    ensures forall j | 0 <= j < 4 :: LargeOctaves[j].blockSz == SMALL_GRANULARITY * ClassUnits(97 + j)
  {
    assert Pow2(12) == 4096;
    forall j | 0 <= j < 4
      ensures LargeOctaves[j].blockSz == SMALL_GRANULARITY * ClassUnits(97 + j)
    {
      if j < 2 {
        if j < 1 {
          assert LargeOctaves[0].blockSz == SMALL_GRANULARITY * ClassUnits(97);
        } else {
          assert LargeOctaves[1].blockSz == SMALL_GRANULARITY * ClassUnits(98);
        }
      } else {
        if j < 3 {
          assert LargeOctaves[2].blockSz == SMALL_GRANULARITY * ClassUnits(99);
        } else {
          assert LargeOctaves[3].blockSz == SMALL_GRANULARITY * ClassUnits(100);
        }
      }
    }
  }

  lemma LargeOctavesOctave15()
    ensures forall j | 4 <= j < 8 :: LargeOctaves[j].blockSz == SMALL_GRANULARITY * ClassUnits(97 + j)
  {
    assert Pow2(13) == 8192;
    forall j | 4 <= j < 8
      ensures LargeOctaves[j].blockSz == SMALL_GRANULARITY * ClassUnits(97 + j)
    {
      if j < 6 {
        if j < 5 {
          assert LargeOctaves[4].blockSz == SMALL_GRANULARITY * ClassUnits(101);
        } else {
          assert LargeOctaves[5].blockSz == SMALL_GRANULARITY * ClassUnits(102);
        }
      } else {
        if j < 7 {
          assert LargeOctaves[6].blockSz == SMALL_GRANULARITY * ClassUnits(103);
        } else {
          assert LargeOctaves[7].blockSz == SMALL_GRANULARITY * ClassUnits(104);
        }
      }
    }
  }

  lemma LargeOctavesOctave16()
    ensures forall j | 8 <= j < 12 :: LargeOctaves[j].blockSz == SMALL_GRANULARITY * ClassUnits(97 + j)
  {
    assert Pow2(14) == 16384;
    forall j | 8 <= j < 12
      ensures LargeOctaves[j].blockSz == SMALL_GRANULARITY * ClassUnits(97 + j)
    {
      if j < 10 {
        if j < 9 {
          assert LargeOctaves[8].blockSz == SMALL_GRANULARITY * ClassUnits(105);
        } else {
          assert LargeOctaves[9].blockSz == SMALL_GRANULARITY * ClassUnits(106);
        }
      } else {
        if j < 11 {
          assert LargeOctaves[10].blockSz == SMALL_GRANULARITY * ClassUnits(107);
        } else {
          assert LargeOctaves[11].blockSz == SMALL_GRANULARITY * ClassUnits(108);
        }
      }
    }
  }

  lemma LargeOctavesOctave17()
    ensures forall j | 12 <= j < 16 :: LargeOctaves[j].blockSz == SMALL_GRANULARITY * ClassUnits(97 + j)
  {
    assert Pow2(15) == 32768;
    forall j | 12 <= j < 16
      ensures LargeOctaves[j].blockSz == SMALL_GRANULARITY * ClassUnits(97 + j)
    {
      if j < 14 {
        if j < 13 {
          assert LargeOctaves[12].blockSz == SMALL_GRANULARITY * ClassUnits(109);
        } else {
          assert LargeOctaves[13].blockSz == SMALL_GRANULARITY * ClassUnits(110);
        }
      } else {
        if j < 15 {
          assert LargeOctaves[14].blockSz == SMALL_GRANULARITY * ClassUnits(111);
        } else {
          assert LargeOctaves[15].blockSz == SMALL_GRANULARITY * ClassUnits(112);
        }
      }
    }
  }

  lemma LargeOctavesOctave18()
    ensures forall j | 16 <= j < 20 :: LargeOctaves[j].blockSz == SMALL_GRANULARITY * ClassUnits(97 + j)
  {
    Pow2Values();
    forall j | 16 <= j < 20
      ensures LargeOctaves[j].blockSz == SMALL_GRANULARITY * ClassUnits(97 + j)
    {
      if j < 18 {
        if j < 17 {
          assert LargeOctaves[16].blockSz == SMALL_GRANULARITY * ClassUnits(113);
        } else {
          assert LargeOctaves[17].blockSz == SMALL_GRANULARITY * ClassUnits(114);
        }
      } else {
        if j < 19 {
          assert LargeOctaves[18].blockSz == SMALL_GRANULARITY * ClassUnits(115);
        } else {
          assert LargeOctaves[19].blockSz == SMALL_GRANULARITY * ClassUnits(116);
        }
      }
    }
  }


  /** Every entry of the default table has the closed-form block size. */
  lemma DefaultTableShape()
    ensures |DefaultTable| == DEFAULT_COUNT
    ensures forall i | 0 <= i < DEFAULT_COUNT ::
              DefaultTable[i].blockSz == SMALL_GRANULARITY * ClassUnits(i)
  {
    DefaultTableLength();
    SmallExactLowShape0();
    SmallExactLowShape1();
    SmallExactLowShape2();
    SmallExactLowShape3();
    SmallExactLowShape4();
    SmallExactHighShape0();
    SmallExactHighShape1();
    SmallExactHighShape2();
    SmallExactHighShape3();
    SmallOctavesOctave6();
    SmallOctavesOctave7();
    MediumOctavesOctave8();
    MediumOctavesOctave9();
    MediumOctavesOctave10();
    MediumOctavesOctave11();
    MediumOctavesOctave12();
    MediumOctavesOctave13();
    LargeOctavesOctave14();
    LargeOctavesOctave15();
    LargeOctavesOctave16();
    LargeOctavesOctave17();
    LargeOctavesOctave18();
    forall i | 0 <= i < DEFAULT_COUNT
      ensures DefaultTable[i].blockSz == SMALL_GRANULARITY * ClassUnits(i)
    {
      if i < 33 {
        assert DefaultTable[i] == SmallExactLow[i];
      } else if i < 65 {
        assert DefaultTable[i] == SmallExactHigh[i - 33];
      } else if i < 73 {
        assert DefaultTable[i] == SmallOctaves[i - 65];
      } else if i < 97 {
        assert DefaultTable[i] == MediumOctaves[i - 73];
      } else {
        assert DefaultTable[i] == LargeOctaves[i - 97];
      }
    }
  }
}
