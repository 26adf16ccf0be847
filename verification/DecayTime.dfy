/**
 How long decay takes: the documented 3544 and 69 seconds.

 For every time there is an exact threshold: the largest reputation that is gone by
 then. The threshold of one more second is larger by its own 199th part, rounded
 down, and by one while it is below 199. A table follows the thresholds up to about
 a million; before that a reputation is squeezed between two geometric sequences.
 */
module DecayTime {
  import opened Reputation

  // ----- the largest reputation gone after a number of seconds

  /** What one second takes down to `m` or less is at most this. */
  function NextThreshold(m: nat): nat {
    if m < 199 then m + 1 else m + m / 199
  }

  function Threshold(m: nat, n: nat): nat {
    if n == 0 then m else NextThreshold(Threshold(m, n - 1))
  }

  lemma StepBelow(r: i32, m: nat)
    ensures DecayStep(r) <= m <==> r <= NextThreshold(m)
    ensures 0 <= DecayStep(r) + m <==> 0 <= r + NextThreshold(m)
  {
    var x: int := r;
    if x >= 200 {
      QuotientsAgree(x, m);
    } else if x <= -200 {
      QuotientsAgree(-x, m);
    }
  }

  lemma QuotientsAgree(r: int, m: nat)
    requires r >= 200
    ensures r - r / 200 <= m <==> r <= NextThreshold(m)
  {
    var q, t := r / 200, m / 199;
    assert 200 * q <= r < 200 * q + 200 && 199 * t <= m < 199 * t + 199;
    if q < t {
      assert 200 * q + 200 <= 200 * t;
    } else if q > t {
      assert 200 * q >= 200 * t + 200;
    }
  }

  /** Every reputation is within `m` of zero after `n` seconds exactly when it is within the threshold. */
  lemma {:induction false} WithinAfter(r: i32, m: nat, n: nat)
    ensures Decay(r, n) <= m <==> r <= Threshold(m, n)
    ensures 0 <= Decay(r, n) + m <==> 0 <= r + Threshold(m, n)
    decreases n
  {
    hide DecayStep, NextThreshold;
    if n > 0 {
      WithinAfter(DecayStep(r), m, n - 1);
      StepBelow(r, Threshold(m, n - 1));
    }
  }

  /** A reputation is gone after `n` seconds exactly when it is within the threshold of zero, for every time. */
  lemma GoneExactly(r: i32, n: nat)
    ensures Decay(r, n) == 0 <==> r <= Threshold(0, n) && 0 <= r + Threshold(0, n)
  {
    hide Decay, Threshold;
    WithinAfter(r, 0, n);
  }

  /** A peer is still banned after `n` seconds exactly when its reputation lies below the threshold of that ban. */
  lemma BannedExactly(r: i32, n: nat)
    ensures Decay(r, n) < BANNED_THRESHOLD <==> r + Threshold(1524713356, n) < 0
  {
    hide Decay, Threshold;
    WithinAfter(r, 1524713356, n);
  }

  // ----- the table

  /** The threshold of `k` seconds is `m`. */
  predicate GoneBy(k: nat, m: int) {
    Threshold(0, k) == m
  }

  /** `b` is `a` and its 199th part. */
  predicate Rises(a: int, b: int) {
    199 <= a && 199 * (b - a) <= a < 199 * (b - a) + 199
  }

  lemma Rise(k: nat, a: int, b: int)
    requires GoneBy(k, a) && Rises(a, b)
    ensures GoneBy(k + 1, b)
  {
    assert a / 199 == b - a;
    assert Threshold(0, k + 1) == NextThreshold(Threshold(0, k));
  }

  lemma Climb(k: nat, m0: int, m1: int, m2: int, m3: int, m4: int, m5: int, m6: int,
              m7: int, m8: int, m9: int, m10: int, m11: int, m12: int)
    requires GoneBy(k, m0)
    requires Rises(m0, m1) && Rises(m1, m2) && Rises(m2, m3) && Rises(m3, m4)
    requires Rises(m4, m5) && Rises(m5, m6) && Rises(m6, m7) && Rises(m7, m8)
    requires Rises(m8, m9) && Rises(m9, m10) && Rises(m10, m11) && Rises(m11, m12)
    ensures GoneBy(k + 12, m12)
  {
    hide GoneBy, Rises;
    Rise(k + 0, m0, m1);
    Rise(k + 1, m1, m2);
    Rise(k + 2, m2, m3);
    Rise(k + 3, m3, m4);
    Rise(k + 4, m4, m5);
    Rise(k + 5, m5, m6);
    Rise(k + 6, m6, m7);
    Rise(k + 7, m7, m8);
    Rise(k + 8, m8, m9);
    Rise(k + 9, m9, m10);
    Rise(k + 10, m10, m11);
    Rise(k + 11, m11, m12);
  }

  /** Within a band of 199 the threshold rises by the same amount every second. */
  lemma {:induction false} Band(k: nat, a: int, q: nat, n: nat)
    requires GoneBy(k, a) && q >= 1 && 199 * q <= a && a + n * q <= 199 * (q + 1) + q - 1
    ensures GoneBy(k + n, a + n * q)
    decreases n
  {
    hide GoneBy;
    if n > 0 {
      assert (n - 1) * q == n * q - q;
      Rise(k, a, a + q);
      Band(k + 1, a + q, q, n - 1);
    }
  }

  /** Up to 199 every second takes one. */
  lemma {:induction false} GoneOneByOne(k: nat)
    requires k <= 199
    ensures GoneBy(k, k)
    decreases k
  {
    if k > 0 {
      GoneOneByOne(k - 1);
    }
  }

  lemma GoneSoon()
    ensures GoneBy(916, 4182)
  {
    hide GoneBy;
    GoneOneByOne(199);
    Band(199, 199, 1, 199);
    Band(398, 398, 2, 100);
    Band(498, 598, 3, 66);
    Band(564, 796, 4, 50);
    Band(614, 996, 5, 40);
    Band(654, 1196, 6, 33);
    Band(687, 1394, 7, 29);
    Band(716, 1597, 8, 25);
    Band(741, 1797, 9, 22);
    Band(763, 1995, 10, 20);
    Band(783, 2195, 11, 18);
    Band(801, 2393, 12, 17);
    Band(818, 2597, 13, 15);
    Band(833, 2792, 14, 14);
    Band(847, 2988, 15, 14);
    Band(861, 3198, 16, 12);
    Band(873, 3390, 17, 12);
    Band(885, 3594, 18, 11);
    Band(896, 3792, 19, 10);
    Band(906, 3982, 20, 10);
  }

  lemma Climb966()
    requires GoneBy(916, 4182)
    ensures GoneBy(966, 5345)
  {
    hide GoneBy;
    Rise(916, 4182, 4203);
    Rise(917, 4203, 4224);
    Climb(918, 4224, 4245, 4266, 4287, 4308, 4329, 4350, 4371, 4392, 4414, 4436, 4458, 4480);
    Climb(930, 4480, 4502, 4524, 4546, 4568, 4590, 4613, 4636, 4659, 4682, 4705, 4728, 4751);
    Climb(942, 4751, 4774, 4797, 4821, 4845, 4869, 4893, 4917, 4941, 4965, 4989, 5014, 5039);
    Climb(954, 5039, 5064, 5089, 5114, 5139, 5164, 5189, 5215, 5241, 5267, 5293, 5319, 5345);
  }

  lemma Climb1014()
    requires GoneBy(966, 5345)
    ensures GoneBy(1014, 6771)
  {
    hide GoneBy;
    Climb(966, 5345, 5371, 5397, 5424, 5451, 5478, 5505, 5532, 5559, 5586, 5614, 5642, 5670);
    Climb(978, 5670, 5698, 5726, 5754, 5782, 5811, 5840, 5869, 5898, 5927, 5956, 5985, 6015);
    Climb(990, 6015, 6045, 6075, 6105, 6135, 6165, 6195, 6226, 6257, 6288, 6319, 6350, 6381);
    Climb(1002, 6381, 6413, 6445, 6477, 6509, 6541, 6573, 6606, 6639, 6672, 6705, 6738, 6771);
  }

  lemma Climb1062()
    requires GoneBy(1014, 6771)
    ensures GoneBy(1062, 8587)
  {
    hide GoneBy;
    Climb(1014, 6771, 6805, 6839, 6873, 6907, 6941, 6975, 7010, 7045, 7080, 7115, 7150, 7185);
    Climb(1026, 7185, 7221, 7257, 7293, 7329, 7365, 7402, 7439, 7476, 7513, 7550, 7587, 7625);
    Climb(1038, 7625, 7663, 7701, 7739, 7777, 7816, 7855, 7894, 7933, 7972, 8012, 8052, 8092);
    Climb(1050, 8092, 8132, 8172, 8213, 8254, 8295, 8336, 8377, 8419, 8461, 8503, 8545, 8587);
  }

  lemma Climb1110()
    requires GoneBy(1062, 8587)
    ensures GoneBy(1110, 10897)
  {
    hide GoneBy;
    Climb(1062, 8587, 8630, 8673, 8716, 8759, 8803, 8847, 8891, 8935, 8979, 9024, 9069, 9114);
    Climb(1074, 9114, 9159, 9205, 9251, 9297, 9343, 9389, 9436, 9483, 9530, 9577, 9625, 9673);
    Climb(1086, 9673, 9721, 9769, 9818, 9867, 9916, 9965, 10015, 10065, 10115, 10165, 10216, 10267);
    Climb(1098, 10267, 10318, 10369, 10421, 10473, 10525, 10577, 10630, 10683, 10736, 10789, 10843, 10897);
  }

  lemma Climb1158()
    requires GoneBy(1110, 10897)
    ensures GoneBy(1158, 13834)
  {
    hide GoneBy;
    Climb(1110, 10897, 10951, 11006, 11061, 11116, 11171, 11227, 11283, 11339, 11395, 11452, 11509, 11566);
    Climb(1122, 11566, 11624, 11682, 11740, 11798, 11857, 11916, 11975, 12035, 12095, 12155, 12216, 12277);
    Climb(1134, 12277, 12338, 12400, 12462, 12524, 12586, 12649, 12712, 12775, 12839, 12903, 12967, 13032);
    Climb(1146, 13032, 13097, 13162, 13228, 13294, 13360, 13427, 13494, 13561, 13629, 13697, 13765, 13834);
  }

  lemma Climb1206()
    requires GoneBy(1158, 13834)
    ensures GoneBy(1206, 17568)
  {
    hide GoneBy;
    Climb(1158, 13834, 13903, 13972, 14042, 14112, 14182, 14253, 14324, 14395, 14467, 14539, 14612, 14685);
    Climb(1170, 14685, 14758, 14832, 14906, 14980, 15055, 15130, 15206, 15282, 15358, 15435, 15512, 15589);
    Climb(1182, 15589, 15667, 15745, 15824, 15903, 15982, 16062, 16142, 16223, 16304, 16385, 16467, 16549);
    Climb(1194, 16549, 16632, 16715, 16798, 16882, 16966, 17051, 17136, 17222, 17308, 17394, 17481, 17568);
  }

  lemma Climb1254()
    requires GoneBy(1206, 17568)
    ensures GoneBy(1254, 22324)
  {
    hide GoneBy;
    Climb(1206, 17568, 17656, 17744, 17833, 17922, 18012, 18102, 18192, 18283, 18374, 18466, 18558, 18651);
    Climb(1218, 18651, 18744, 18838, 18932, 19027, 19122, 19218, 19314, 19411, 19508, 19606, 19704, 19803);
    Climb(1230, 19803, 19902, 20002, 20102, 20203, 20304, 20406, 20508, 20611, 20714, 20818, 20922, 21027);
    Climb(1242, 21027, 21132, 21238, 21344, 21451, 21558, 21666, 21774, 21883, 21992, 22102, 22213, 22324);
  }

  lemma Climb1302()
    requires GoneBy(1254, 22324)
    ensures GoneBy(1302, 28369)
  {
    hide GoneBy;
    Climb(1254, 22324, 22436, 22548, 22661, 22774, 22888, 23003, 23118, 23234, 23350, 23467, 23584, 23702);
    Climb(1266, 23702, 23821, 23940, 24060, 24180, 24301, 24423, 24545, 24668, 24791, 24915, 25040, 25165);
    Climb(1278, 25165, 25291, 25418, 25545, 25673, 25802, 25931, 26061, 26191, 26322, 26454, 26586, 26719);
    Climb(1290, 26719, 26853, 26987, 27122, 27258, 27394, 27531, 27669, 27808, 27947, 28087, 28228, 28369);
  }

  lemma Climb1350()
    requires GoneBy(1302, 28369)
    ensures GoneBy(1350, 36057)
  {
    hide GoneBy;
    Climb(1302, 28369, 28511, 28654, 28797, 28941, 29086, 29232, 29378, 29525, 29673, 29822, 29971, 30121);
    Climb(1314, 30121, 30272, 30424, 30576, 30729, 30883, 31038, 31193, 31349, 31506, 31664, 31823, 31982);
    Climb(1326, 31982, 32142, 32303, 32465, 32628, 32791, 32955, 33120, 33286, 33453, 33621, 33789, 33958);
    Climb(1338, 33958, 34128, 34299, 34471, 34644, 34818, 34992, 35167, 35343, 35520, 35698, 35877, 36057);
  }

  lemma Climb1398()
    requires GoneBy(1350, 36057)
    ensures GoneBy(1398, 45841)
  {
    hide GoneBy;
    Climb(1350, 36057, 36238, 36420, 36603, 36786, 36970, 37155, 37341, 37528, 37716, 37905, 38095, 38286);
    Climb(1362, 38286, 38478, 38671, 38865, 39060, 39256, 39453, 39651, 39850, 40050, 40251, 40453, 40656);
    Climb(1374, 40656, 40860, 41065, 41271, 41478, 41686, 41895, 42105, 42316, 42528, 42741, 42955, 43170);
    Climb(1386, 43170, 43386, 43604, 43823, 44043, 44264, 44486, 44709, 44933, 45158, 45384, 45612, 45841);
  }

  lemma Climb1446()
    requires GoneBy(1398, 45841)
    ensures GoneBy(1446, 58284)
  {
    hide GoneBy;
    Climb(1398, 45841, 46071, 46302, 46534, 46767, 47002, 47238, 47475, 47713, 47952, 48192, 48434, 48677);
    Climb(1410, 48677, 48921, 49166, 49413, 49661, 49910, 50160, 50412, 50665, 50919, 51174, 51431, 51689);
    Climb(1422, 51689, 51948, 52209, 52471, 52734, 52998, 53264, 53531, 53800, 54070, 54341, 54614, 54888);
    Climb(1434, 54888, 55163, 55440, 55718, 55997, 56278, 56560, 56844, 57129, 57416, 57704, 57993, 58284);
  }

  lemma Climb1494()
    requires GoneBy(1446, 58284)
    ensures GoneBy(1494, 74110)
  {
    hide GoneBy;
    Climb(1446, 58284, 58576, 58870, 59165, 59462, 59760, 60060, 60361, 60664, 60968, 61274, 61581, 61890);
    Climb(1458, 61890, 62201, 62513, 62827, 63142, 63459, 63777, 64097, 64419, 64742, 65067, 65393, 65721);
    Climb(1470, 65721, 66051, 66382, 66715, 67050, 67386, 67724, 68064, 68406, 68749, 69094, 69441, 69789);
    Climb(1482, 69789, 70139, 70491, 70845, 71201, 71558, 71917, 72278, 72641, 73006, 73372, 73740, 74110);
  }

  lemma Climb1542()
    requires GoneBy(1494, 74110)
    ensures GoneBy(1542, 94240)
  {
    hide GoneBy;
    Climb(1494, 74110, 74482, 74856, 75232, 75610, 75989, 76370, 76753, 77138, 77525, 77914, 78305, 78698);
    Climb(1506, 78698, 79093, 79490, 79889, 80290, 80693, 81098, 81505, 81914, 82325, 82738, 83153, 83570);
    Climb(1518, 83570, 83989, 84411, 84835, 85261, 85689, 86119, 86551, 86985, 87422, 87861, 88302, 88745);
    Climb(1530, 88745, 89190, 89638, 90088, 90540, 90994, 91451, 91910, 92371, 92835, 93301, 93769, 94240);
  }

  lemma Climb1590()
    requires GoneBy(1542, 94240)
    ensures GoneBy(1590, 119848)
  {
    hide GoneBy;
    Climb(1542, 94240, 94713, 95188, 95666, 96146, 96629, 97114, 97602, 98092, 98584, 99079, 99576, 100076);
    Climb(1554, 100076, 100578, 101083, 101590, 102100, 102613, 103128,
          103646, 104166, 104689, 105215, 105743, 106274);
    Climb(1566, 106274, 106808, 107344, 107883, 108425, 108969, 109516,
          110066, 110619, 111174, 111732, 112293, 112857);
    Climb(1578, 112857, 113424, 113993, 114565, 115140, 115718, 116299,
          116883, 117470, 118060, 118653, 119249, 119848);
  }

  lemma Climb1638()
    requires GoneBy(1590, 119848)
    ensures GoneBy(1638, 152424)
  {
    hide GoneBy;
    Climb(1590, 119848, 120450, 121055, 121663, 122274, 122888, 123505,
          124125, 124748, 125374, 126004, 126637, 127273);
    Climb(1602, 127273, 127912, 128554, 129200, 129849, 130501, 131156,
          131815, 132477, 133142, 133811, 134483, 135158);
    Climb(1614, 135158, 135837, 136519, 137205, 137894, 138586, 139282,
          139981, 140684, 141390, 142100, 142814, 143531);
    Climb(1626, 143531, 144252, 144976, 145704, 146436, 147171, 147910,
          148653, 149400, 150150, 150904, 151662, 152424);
  }

  lemma Climb1686()
    requires GoneBy(1638, 152424)
    ensures GoneBy(1686, 193859)
  {
    hide GoneBy;
    Climb(1638, 152424, 153189, 153958, 154731, 155508, 156289, 157074,
          157863, 158656, 159453, 160254, 161059, 161868);
    Climb(1650, 161868, 162681, 163498, 164319, 165144, 165973, 166807,
          167645, 168487, 169333, 170183, 171038, 171897);
    Climb(1662, 171897, 172760, 173628, 174500, 175376, 176257, 177142,
          178032, 178926, 179825, 180728, 181636, 182548);
    Climb(1674, 182548, 183465, 184386, 185312, 186243, 187178, 188118,
          189063, 190013, 190967, 191926, 192890, 193859);
  }

  lemma Climb1734()
    requires GoneBy(1686, 193859)
    ensures GoneBy(1734, 246563)
  {
    hide GoneBy;
    Climb(1686, 193859, 194833, 195812, 196795, 197783, 198776, 199774,
          200777, 201785, 202798, 203817, 204841, 205870);
    Climb(1698, 205870, 206904, 207943, 208987, 210037, 211092, 212152,
          213218, 214289, 215365, 216447, 217534, 218627);
    Climb(1710, 218627, 219725, 220829, 221938, 223053, 224173, 225299,
          226431, 227568, 228711, 229860, 231015, 232175);
    Climb(1722, 232175, 233341, 234513, 235691, 236875, 238065, 239261,
          240463, 241671, 242885, 244105, 245331, 246563);
  }

  lemma Climb1782()
    requires GoneBy(1734, 246563)
    ensures GoneBy(1782, 313605)
  {
    hide GoneBy;
    Climb(1734, 246563, 247802, 249047, 250298, 251555, 252819, 254089,
          255365, 256648, 257937, 259233, 260535, 261844);
    Climb(1746, 261844, 263159, 264481, 265810, 267145, 268487, 269836,
          271191, 272553, 273922, 275298, 276681, 278071);
    Climb(1758, 278071, 279468, 280872, 282283, 283701, 285126, 286558,
          287997, 289444, 290898, 292359, 293828, 295304);
    Climb(1770, 295304, 296787, 298278, 299776, 301282, 302795, 304316,
          305845, 307381, 308925, 310477, 312037, 313605);
  }

  lemma Climb1830()
    requires GoneBy(1782, 313605)
    ensures GoneBy(1830, 398882)
  {
    hide GoneBy;
    Climb(1782, 313605, 315180, 316763, 318354, 319953, 321560, 323175,
          324798, 326430, 328070, 329718, 331374, 333039);
    Climb(1794, 333039, 334712, 336393, 338083, 339781, 341488, 343204,
          344928, 346661, 348403, 350153, 351912, 353680);
    Climb(1806, 353680, 355457, 357243, 359038, 360842, 362655, 364477,
          366308, 368148, 369997, 371856, 373724, 375602);
    Climb(1818, 375602, 377489, 379385, 381291, 383207, 385132, 387067,
          389012, 390966, 392930, 394904, 396888, 398882);
  }

  lemma Climb1878()
    requires GoneBy(1830, 398882)
    ensures GoneBy(1878, 507353)
  {
    hide GoneBy;
    Climb(1830, 398882, 400886, 402900, 404924, 406958, 409003, 411058,
          413123, 415198, 417284, 419380, 421487, 423605);
    Climb(1842, 423605, 425733, 427872, 430022, 432182, 434353, 436535,
          438728, 440932, 443147, 445373, 447611, 449860);
    Climb(1854, 449860, 452120, 454391, 456674, 458968, 461274, 463591,
          465920, 468261, 470614, 472978, 475354, 477742);
    Climb(1866, 477742, 480142, 482554, 484978, 487415, 489864, 492325,
          494798, 497284, 499782, 502293, 504817, 507353);
  }

  lemma Climb1926()
    requires GoneBy(1878, 507353)
    ensures GoneBy(1926, 645338)
  {
    hide GoneBy;
    Climb(1878, 507353, 509902, 512464, 515039, 517627, 520228, 522842,
          525469, 528109, 530762, 533429, 536109, 538803);
    Climb(1890, 538803, 541510, 544231, 546965, 549713, 552475, 555251,
          558041, 560845, 563663, 566495, 569341, 572202);
    Climb(1902, 572202, 575077, 577966, 580870, 583788, 586721, 589669,
          592632, 595610, 598603, 601611, 604634, 607672);
    Climb(1914, 607672, 610725, 613793, 616877, 619976, 623091, 626222,
          629368, 632530, 635708, 638902, 642112, 645338);
  }

  lemma Climb1974()
    requires GoneBy(1926, 645338)
    ensures GoneBy(1974, 820852)
  {
    hide GoneBy;
    Climb(1926, 645338, 648580, 651839, 655114, 658406, 661714, 665039,
          668380, 671738, 675113, 678505, 681914, 685340);
    Climb(1938, 685340, 688783, 692244, 695722, 699218, 702731, 706262,
          709811, 713377, 716961, 720563, 724183, 727822);
    Climb(1950, 727822, 731479, 735154, 738848, 742560, 746291, 750041,
          753810, 757597, 761404, 765230, 769075, 772939);
    Climb(1962, 772939, 776823, 780726, 784649, 788591, 792553, 796535,
          800537, 804559, 808602, 812665, 816748, 820852);
  }

  lemma Climb2022()
    requires GoneBy(1974, 820852)
    ensures GoneBy(2022, 1044106)
  {
    hide GoneBy;
    Climb(1974, 820852, 824976, 829121, 833287, 837474, 841682, 845911,
          850161, 854433, 858726, 863041, 867377, 871735);
    Climb(1986, 871735, 876115, 880517, 884941, 889387, 893856, 898347,
          902861, 907397, 911956, 916538, 921143, 925771);
    Climb(1998, 925771, 930423, 935098, 939796, 944518, 949264, 954034,
          958828, 963646, 968488, 973354, 978245, 983160);
    Climb(2010, 983160, 988100, 993065, 998055, 1003070, 1008110, 1013175,
          1018266, 1023382, 1028524, 1033692, 1038886, 1044106);
  }

  /** The thresholds of 2022 and of 2023 seconds. */
  lemma GoneLater()
    ensures GoneBy(2022, 1044106) && GoneBy(2023, 1049352)
  {
    hide GoneBy;
    GoneSoon();
    Climb966();
    Climb1014();
    Climb1062();
    Climb1110();
    Climb1158();
    Climb1206();
    Climb1254();
    Climb1302();
    Climb1350();
    Climb1398();
    Climb1446();
    Climb1494();
    Climb1542();
    Climb1590();
    Climb1638();
    Climb1686();
    Climb1734();
    Climb1782();
    Climb1830();
    Climb1878();
    Climb1926();
    Climb1974();
    Climb2022();
    Rise(2022, 1044106, 1049352);
  }

  // ----- geometric bounds

  /** 0.995 to the power of `n`: the share of a reputation that `n` seconds leave, up to rounding. */
  ghost function Left(n: nat): real {
    if n == 0 then 1.0 else 0.995 * Left(n - 1)
  }

  lemma {:induction false} LeftAdds(a: nat, b: nat)
    ensures Left(a + b) == Left(a) * Left(b)
    ensures 0.0 < Left(a) <= 1.0
    decreases a
  {
    if a > 0 {
      LeftAdds(a - 1, b);
    }
  }

  lemma ProductBounds(p: real, q: real, loP: real, hiP: real, loQ: real, hiQ: real)
    requires 0.0 <= loP <= p <= hiP && 0.0 <= loQ <= q <= hiQ
    ensures loP * loQ <= p * q <= hiP * hiQ
  {
    Scale(loQ, q, loP);
    Scale(loP, p, q);
    Scale(q, hiQ, hiP);
    Scale(p, hiP, q);
  }

  lemma LeftDoubles(n: nat, lo: real, hi: real)
    requires 0.0 <= lo <= Left(n) <= hi
    ensures lo * lo <= Left(n + n) <= hi * hi
  {
    LeftAdds(n, n);
    ProductBounds(Left(n), Left(n), lo, hi, lo, hi);
  }

  lemma LeftTogether(a: nat, b: nat, loA: real, hiA: real, loB: real, hiB: real)
    requires 0.0 <= loA <= Left(a) <= hiA && 0.0 <= loB <= Left(b) <= hiB
    ensures loA * loB <= Left(a + b) <= hiA * hiB
  {
    LeftAdds(a, b);
    ProductBounds(Left(a), Left(b), loA, hiA, loB, hiB);
  }

  lemma StepIsNearlyGeometric(r: i32)
    requires r >= 200
    ensures 199 * r <= 200 * DecayStep(r) <= 199 * r + 199
    ensures 0.995 * r as real <= DecayStep(r) as real
    ensures (DecayStep(r) - 199) as real <= 0.995 * (r - 199) as real
  {
  }

  lemma Scale(x: real, y: real, c: real)
    requires x <= y && c >= 0.0
    ensures c * x <= c * y
  {
  }

  lemma LeftUnfolds(n: nat)
    requires n > 0
    ensures Left(n) == 0.995 * Left(n - 1) && Left(n - 1) >= 0.0
  {
    LeftAdds(n - 1, 0);
  }

  lemma SqueezeFromAbove(x: real, share: real, before: real, after: real)
    requires x <= 199.0 + share * after && after <= 0.995 * before && share >= 0.0
    ensures x <= 199.0 + 0.995 * share * before
  {
    Scale(after, 0.995 * before, share);
  }

  /** Rounding costs at most 199: above that offset the decay is at least geometric. */
  lemma {:induction false} GeometricUpper(r: i32, n: nat)
    requires r >= 199
    ensures Decay(r, n) as real <= 199.0 + Left(n) * (r - 199) as real
    decreases n
  {
    hide DecayStep;
    if n == 0 {
      assert Left(n) == 1.0;
    } else if r == 199 {
      DecayShrinks(r, n);
    } else {
      LeftUnfolds(n);
      DecayUnfolds(r, n);
      hide Left, Decay;
      var s := DecayStep(r);
      StepIsNearlyGeometric(r);
      GeometricUpper(s, n - 1);
      SqueezeFromAbove(Decay(s, n - 1) as real, Left(n - 1), (r - 199) as real, (s - 199) as real);
    }
  }

  /** A reputation loses no more than a two-hundredth a second, as long as that leaves 200. */
  lemma {:induction false} GeometricLower(r: i32, n: nat)
    requires r >= 0 && Left(n) * r as real >= 200.0
    ensures Decay(r, n) as real >= Left(n) * r as real
    decreases n
  {
    hide DecayStep;
    assert r >= 200 by {
      LeftAdds(n, 0);
      Scale(Left(n), 1.0, r as real);
    }
    if n == 0 {
      assert Left(n) == 1.0;
    } else {
      LeftUnfolds(n);
      hide Left;
      var s := DecayStep(r);
      StepIsNearlyGeometric(r);
      Scale(0.995 * r as real, s as real, Left(n - 1));
      GeometricLower(s, n - 1);
    }
  }

  lemma LeftOfOne()
    ensures Left(1) == 0.995
  {
    assert Left(0) == 1.0;
  }

  lemma LeftValues()
    ensures 0.7105 <= Left(68) && 0.0 <= Left(69) <= 0.7078
    ensures 0.00049100140 <= Left(1520) <= 0.00049100141
  {
    hide Left;
    LeftOfOne();
    LeftUnfolds(69);
    LeftDoubles(1, 0.995, 0.995);
    LeftDoubles(2, 0.99002500000000, 0.99002500000000);
    LeftDoubles(4, 0.98014950062500, 0.98014950062500);
    LeftDoubles(8, 0.96069304357543, 0.96069304357544);
    LeftDoubles(16, 0.92293112397422, 0.92293112397425);
    LeftDoubles(32, 0.85180185960031, 0.85180185960038);
    LeftDoubles(64, 0.72556640801854, 0.72556640801867);
    LeftDoubles(128, 0.52644661244492, 0.52644661244512);
    LeftDoubles(256, 0.27714603575473, 0.27714603575495);
    LeftDoubles(512, 0.07680992513456, 0.07680992513469);
    LeftTogether(64, 4, 0.72556640801854, 0.72556640801867, 0.98014950062500, 0.98014950062500);
    LeftTogether(1024, 256, 0.00589976459917, 0.00589976459920,
                 0.27714603575473, 0.27714603575495);
    LeftTogether(1280, 128, 0.00163509637054, 0.00163509637056,
                 0.52644661244492, 0.52644661244512);
    LeftTogether(1408, 64, 0.00086079094529, 0.00086079094531,
                 0.72556640801854, 0.72556640801867);
    LeftTogether(1472, 32, 0.00062456099422, 0.00062456099425,
                 0.85180185960031, 0.85180185960038);
    LeftTogether(1504, 16, 0.00053200221631, 0.00053200221634,
                 0.92293112397422, 0.92293112397425);
  }

  // ----- the documented times

  /** The two extreme reputations after one second, the second one without its sign. */
  lemma AfterOneSecond()
    ensures DecayStep(I32_MAX) == 2136746229 && DecayStep(I32_MIN) == -2136746230
  {
  }

  lemma LaterAbove(s: i32)
    requires s >= 2136746229
    ensures Decay(s, 3542) != 0
  {
    hide Decay, Left, GoneBy;
    LeftValues();
    ProductBounds(Left(1520), s as real, 0.00049100140, 1.0, 2136746229.0, 2147483648.0);
    GeometricLower(s, 1520);
    assert Decay(s, 1520) as real >= 1049145.0;
    assert Decay(s, 1520) > 1044106;
    GoneLater();
    GoneMeans(2022, 1044106, Decay(s, 1520));
    DecayComposes(s, 1520, 2022);
  }

  lemma LaterBelow(s: i32)
    requires 0 <= s <= 2136746230
    ensures Decay(s, 3543) == 0
  {
    hide Decay, Left, GoneBy;
    LeftValues();
    DecayShrinks(s, 1520);
    if s >= 199 {
      GeometricUpper(s, 1520);
      ProductBounds(Left(1520), (s - 199) as real, 0.0, 0.00049100141, 0.0, 2136746031.0);
      assert Decay(s, 1520) as real <= 1049345.0;
    }
    assert Decay(s, 1520) <= 1049352;
    GoneLater();
    GoneMeans(2023, 1049352, Decay(s, 1520));
    DecayComposes(s, 1520, 2023);
  }

  lemma GoneMeans(k: nat, m: int, r: i32)
    requires GoneBy(k, m) && r >= 0
    ensures Decay(r, k) == 0 <==> r <= m
  {
    GoneExactly(r, k);
  }

  /** Every reputation has decayed to zero after 3544 seconds. */
  lemma DecayReachesZero(r: i32, n: nat)
    requires n >= 3544
    ensures Decay(r, n) == 0
  {
    hide Decay, DecayStep;
    AfterOneSecond();
    StepIsMonotone(I32_MIN, r);
    StepIsMonotone(r, I32_MAX);
    DecayUnfolds(r, n);
    StepShrinks(r);
    var s := DecayStep(r);
    if s >= 0 {
      LaterBelow(s);
    } else {
      DecayIsOdd(-s, 3543);
      LaterBelow(-s);
    }
    DecayComposes(s, 3543, n - 3544);
    ZeroStays(n - 3544);
  }

  /** The two extreme reputations take exactly 3544 seconds. */
  lemma DecayTakesThatLong()
    ensures Decay(I32_MAX, 3543) != 0 && Decay(I32_MIN, 3543) != 0
    ensures Decay(I32_MAX, 3544) == 0 && Decay(I32_MIN, 3544) == 0
  {
    hide Decay, DecayStep;
    AfterOneSecond();
    DecayUnfolds(I32_MAX, 3543);
    DecayUnfolds(I32_MIN, 3543);
    LaterAbove(2136746229);
    LaterAbove(2136746230);
    DecayIsOdd(2136746230, 3542);
    DecayReachesZero(I32_MAX, 3544);
    DecayReachesZero(I32_MIN, 3544);
  }

  /** The lowest reputation leaves the banned range after exactly 69 seconds. */
  lemma LongestBan()
    ensures Decay(I32_MIN, 68) < -1524713356 <= Decay(I32_MIN, 69)
  {
    hide Decay, Left;
    var s: i32 := 2136746230;
    assert DecayStep(I32_MIN) == -s;
    DecayUnfolds(I32_MIN, 68);
    DecayUnfolds(I32_MIN, 69);
    DecayIsOdd(s, 67);
    DecayIsOdd(s, 68);
    LeftValues();
    LeftUnfolds(68);
    LeftUnfolds(69);
    GeometricUpper(s, 68);
    GeometricLower(s, 67);
  }
}
