/** The interpolation table as it is shipped (src/dsp.c), and the positions between two samples
    at which an interpolated sample can overflow. */
module GaussTable {
  import opened Bits
  import opened VoiceRuns

  type Weight = x: s16 | 0 <= x < 0x800

  /** The first half of the table, in rows of sixteen. */
  function Low(r: nat): (s: seq<Weight>)
    requires r < 16
    ensures |s| == 16
  {
    match r
    case 0 => [0, 0, 0, 0, 0, 0, 0, 0, 0, 0, 0, 0, 0, 0, 0, 0]
    case 1 => [1, 1, 1, 1, 1, 1, 1, 1, 1, 1, 1, 2, 2, 2, 2, 2]
    case 2 => [2, 2, 3, 3, 3, 3, 3, 4, 4, 4, 4, 4, 5, 5, 5, 5]
    case 3 => [6, 6, 6, 6, 7, 7, 7, 8, 8, 8, 9, 9, 9, 10, 10, 10]
    case 4 => [11, 11, 11, 12, 12, 13, 13, 14, 14, 15, 15, 15, 16, 16, 17, 17]
    case 5 => [18, 19, 19, 20, 20, 21, 21, 22, 23, 23, 24, 24, 25, 26, 27, 27]
    case 6 => [28, 29, 29, 30, 31, 32, 32, 33, 34, 35, 36, 36, 37, 38, 39, 40]
    case 7 => [41, 42, 43, 44, 45, 46, 47, 48, 49, 50, 51, 52, 53, 54, 55, 56]
    case 8 => [58, 59, 60, 61, 62, 64, 65, 66, 67, 69, 70, 71, 73, 74, 76, 77]
    case 9 => [78, 80, 81, 83, 84, 86, 87, 89, 90, 92, 94, 95, 97, 99, 100, 102]
    case 10 => [104, 106, 107, 109, 111, 113, 115, 117, 118, 120, 122, 124, 126, 128, 130, 132]
    case 11 => [134, 137, 139, 141, 143, 145, 147, 150, 152, 154, 156, 159, 161, 163, 166, 168]
    case 12 => [171, 173, 175, 178, 180, 183, 186, 188, 191, 193, 196, 199, 201, 204, 207, 210]
    case 13 => [212, 215, 218, 221, 224, 227, 230, 233, 236, 239, 242, 245, 248, 251, 254, 257]
    case 14 => [260, 263, 267, 270, 273, 276, 280, 283, 286, 290, 293, 297, 300, 304, 307, 311]
    case _ => [314, 318, 321, 325, 328, 332, 336, 339, 343, 347, 351, 354, 358, 362, 366, 370]
  }

  /** The second half. */
  function High(r: nat): (s: seq<Weight>)
    requires r < 16
    ensures |s| == 16
  {
    match r
    case 0 => [374, 378, 381, 385, 389, 393, 397, 401, 405, 410, 414, 418, 422, 426, 430, 434]
    case 1 => [439, 443, 447, 451, 456, 460, 464, 469, 473, 477, 482, 486, 491, 495, 499, 504]
    case 2 => [508, 513, 517, 522, 527, 531, 536, 540, 545, 550, 554, 559, 563, 568, 573, 577]
    case 3 => [582, 587, 592, 596, 601, 606, 611, 615, 620, 625, 630, 635, 640, 644, 649, 654]
    case 4 => [659, 664, 669, 674, 678, 683, 688, 693, 698, 703, 708, 713, 718, 723, 728, 732]
    case 5 => [737, 742, 747, 752, 757, 762, 767, 772, 777, 782, 787, 792, 797, 802, 806, 811]
    case 6 => [816, 821, 826, 831, 836, 841, 846, 851, 855, 860, 865, 870, 875, 880, 884, 889]
    case 7 => [894, 899, 904, 908, 913, 918, 923, 927, 932, 937, 941, 946, 951, 955, 960, 965]
    case 8 => [969, 974, 978, 983, 988, 992, 997, 1001, 1005, 1010, 1014, 1019, 1023, 1027, 1032, 1036]
    case 9 => [1040, 1045, 1049, 1053, 1057, 1061, 1066, 1070, 1074, 1078, 1082, 1086, 1090, 1094, 1098, 1102]
    case 10 => [1106, 1109, 1113, 1117, 1121, 1125, 1128, 1132, 1136, 1139, 1143, 1146, 1150, 1153, 1157, 1160]
    case 11 => [1164, 1167, 1170, 1174, 1177, 1180, 1183, 1186, 1190, 1193, 1196, 1199, 1202, 1205, 1207, 1210]
    case 12 => [1213, 1216, 1219, 1221, 1224, 1227, 1229, 1232, 1234, 1237, 1239, 1241, 1244, 1246, 1248, 1251]
    case 13 => [1253, 1255, 1257, 1259, 1261, 1263, 1265, 1267, 1269, 1270, 1272, 1274, 1275, 1277, 1279, 1280]
    case 14 => [1282, 1283, 1284, 1286, 1287, 1288, 1290, 1291, 1292, 1293, 1294, 1295, 1296, 1297, 1297, 1298]
    case _ => [1299, 1300, 1300, 1301, 1302, 1302, 1303, 1303, 1303, 1304, 1304, 1304, 1304, 1304, 1305, 1305]
  }

  /** All of it. */
  function Table(): (s: seq<Weight>)
    ensures |s| == 512
  {
    seq(512, i requires 0 <= i < 512 => if i < 256 then Low(i / 16)[i % 16] else High(i / 16 - 16)[i % 16])
  }

  lemma TableAt(i: nat)
    requires i < 256
    ensures Table()[i] == Low(i / 16)[i % 16] && Table()[256 + i] == High(i / 16)[i % 16]
  {
    hide Low, High;
    assert (256 + i) / 16 - 16 == i / 16 && (256 + i) % 16 == i % 16;
  }

  // ---- one row of positions ----

  /** The weights at place j of row q, two of them from the rows that mirror it. */
  function Weights(q: nat, j: nat): int
    requires q < 16 && j < 16
  {
    Low(15 - q)[15 - j] as int + High(15 - q)[15 - j] + High(q)[j] + Low(q)[j]
  }

  /** The places of the first eight rows at which the weights add up to more than one. */
  predicate Over(q: nat, j: nat)
    requires q < 8
  {
    match q
    case 0 => j == 0 || j == 1 || j == 9
    case 1 => j == 0 || j == 2 || j == 4 || j == 12
    case 2 => j == 4 || j == 7 || j == 8 || j == 9
    case 3 => j == 0 || j == 10
    case 4 => j == 3 || j == 7 || j == 12 || j == 14
    case 5 => j == 8 || j == 10
    case 6 => j == 5
    case _ => j == 1 || j == 6 || j == 9
  }

  /** At the first n places of row q the weights add up to one, give or take 1/2048, and to
      more at those places. */
  predicate AddUp(q: nat, n: nat)
    requires q < 8 && n <= 16
  {
    n == 0 || (AddUp(q, n - 1) && 2047 <= Weights(q, n - 1) <= 2049 && (Weights(q, n - 1) == 2049) == Over(q, n - 1))
  }

  lemma {:induction false} AddUpAt(q: nat, n: nat, j: nat)
    requires q < 8 && j < n <= 16 && AddUp(q, n)
    ensures 2047 <= Weights(q, j) <= 2049 && (Weights(q, j) == 2049 <==> Over(q, j))
  {
    hide Weights, Over;
    if j < n - 1 {
      AddUpAt(q, n - 1, j);
    }
  }

  lemma Row0()
    ensures AddUp(0, 16)
  {
    assert AddUp(0, 8) by {
      assert AddUp(0, 4);
    }
    assert AddUp(0, 12);
  }

  lemma Row1()
    ensures AddUp(1, 16)
  {
    assert AddUp(1, 8) by {
      assert AddUp(1, 4);
    }
    assert AddUp(1, 12);
  }

  lemma Row2()
    ensures AddUp(2, 16)
  {
    assert AddUp(2, 8) by {
      assert AddUp(2, 4);
    }
    assert AddUp(2, 12);
  }

  lemma Row3()
    ensures AddUp(3, 16)
  {
    assert AddUp(3, 8) by {
      assert AddUp(3, 4);
    }
    assert AddUp(3, 12);
  }

  lemma Row4()
    ensures AddUp(4, 16)
  {
    assert AddUp(4, 8) by {
      assert AddUp(4, 4);
    }
    assert AddUp(4, 12);
  }

  lemma Row5()
    ensures AddUp(5, 16)
  {
    assert AddUp(5, 8) by {
      assert AddUp(5, 4);
    }
    assert AddUp(5, 12);
  }

  lemma Row6()
    ensures AddUp(6, 16)
  {
    assert AddUp(6, 8) by {
      assert AddUp(6, 4);
    }
    assert AddUp(6, 12);
  }

  lemma Row7()
    ensures AddUp(7, 16)
  {
    assert AddUp(7, 8) by {
      assert AddUp(7, 4);
    }
    assert AddUp(7, 12);
  }

  lemma {:induction false} RowAddsUp(q: nat)
    requires q < 8
    ensures AddUp(q, 16)
  {
    hide Low, High, Over, AddUp;
    match q {
      case 0 => Row0();
      case 1 => Row1();
      case 2 => Row2();
      case 3 => Row3();
      case 4 => Row4();
      case 5 => Row5();
      case 6 => Row6();
      case 7 => Row7();
    }
  }

  // ---- all positions ----

  /** The table's weights for a position and for its mirror image are the same four. */
  lemma WeightsMirror(m: nat)
    requires m < 256
    ensures WeightSum(Table(), m) == WeightSum(Table(), 255 - m)
  {
    hide Table;
  }

  /** The positions whose weights add up to more than one. */
  predicate Overshoots(m: nat)
    requires m < 256
  {
    if m < 128 then Over(m / 16, m % 16) else Over((255 - m) / 16, (255 - m) % 16)
  }

  lemma WeightSumsOfTable(m: nat)
    requires m < 256
    ensures 2047 <= WeightSum(Table(), m) <= 2049
    ensures WeightSum(Table(), m) == 2049 <==> Overshoots(m)
  {
    hide Low, High, Table, Over, AddUp;
    if m < 128 {
      RowOfPosition(m);
    } else {
      WeightsMirror(m);
      RowOfPosition(255 - m);
    }
  }

  lemma RowOfPosition(m: nat)
    requires m < 128
    ensures 2047 <= WeightSum(Table(), m) <= 2049
    ensures WeightSum(Table(), m) == 2049 <==> Over(m / 16, m % 16)
  {
    hide Low, High, Table, Over, AddUp;
    var q, j := m / 16, m % 16;
    RowAddsUp(q);
    AddUpAt(q, 16, j);
    TableAt(m);
    TableAt(255 - m);
    assert (255 - m) / 16 == 15 - q && (255 - m) % 16 == 15 - j;
    assert WeightSum(Table(), m) == Weights(q, j);
  }

  lemma TableWeighs(m: nat)
    requires m < 256
    ensures NonNegative(Table(), m)
  {
    hide Table;
  }

  /** With the shipped table an interpolated sample can leave 16 bits exactly at these
      positions, and never by more than sixteen. */
  lemma TableOverflows(m: nat)
    requires m < 256
    ensures CanOverflow(Table(), m) <==> Overshoots(m)
    ensures forall a: s16, b: s16, c: s16, d: s16 :: -32784 <= Blended(Table(), m, a, b, c, d) <= 32783
  {
    hide Table, Over, Overshoots;
    WeightSumsOfTable(m);
    TableWeighs(m);
    OverflowsExactly(Table(), m);
    forall a: s16, b: s16, c: s16, d: s16
      ensures -32784 <= Blended(Table(), m, a, b, c, d) <= 32783
    {
      BlendBounds(Table(), m, a, b, c, d);
    }
  }
}
