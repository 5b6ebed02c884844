/**
 The constants of the MD5 code, line by line: the table of RFC 1321.
 */
module Md5Table {
  import opened LittleEndian
  import opened Md5Sine
  import opened Md5Spec

  /** The constant that line `i` of the code adds. */
  function Constant(i: nat): (t: nat)
    requires i < 64
    ensures t < WORD
  {
    if i < 16 then (
      match i
      case 0 => 0xd76aa478 case 1 => 0xe8c7b756 case 2 => 0x242070db case 3 => 0xc1bdceee
      case 4 => 0xf57c0faf case 5 => 0x4787c62a case 6 => 0xa8304613 case 7 => 0xfd469501
      case 8 => 0x698098d8 case 9 => 0x8b44f7af case 10 => 0xffff5bb1 case 11 => 0x895cd7be
      case 12 => 0x6b901122 case 13 => 0xfd987193 case 14 => 0xa679438e case _ => 0x49b40821
    ) else if i < 32 then (
      match i
      case 16 => 0xf61e2562 case 17 => 0xc040b340 case 18 => 0x265e5a51 case 19 => 0xe9b6c7aa
      case 20 => 0xd62f105d case 21 => 0x02441453 case 22 => 0xd8a1e681 case 23 => 0xe7d3fbc8
      case 24 => 0x21e1cde6 case 25 => 0xc33707d6 case 26 => 0xf4d50d87 case 27 => 0x455a14ed
      case 28 => 0xa9e3e905 case 29 => 0xfcefa3f8 case 30 => 0x676f02d9 case _ => 0x8d2a4c8a
    ) else if i < 48 then (
      match i
      case 32 => 0xfffa3942 case 33 => 0x8771f681 case 34 => 0x6d9d6122 case 35 => 0xfde5380c
      case 36 => 0xa4beea44 case 37 => 0x4bdecfa9 case 38 => 0xf6bb4b60 case 39 => 0xbebfbc70
      case 40 => 0x289b7ec6 case 41 => 0xeaa127fa case 42 => 0xd4ef3085 case 43 => 0x04881d05
      case 44 => 0xd9d4d039 case 45 => 0xe6db99e5 case 46 => 0x1fa27cf8 case _ => 0xc4ac5665
    ) else (
      match i
      case 48 => 0xf4292244 case 49 => 0x432aff97 case 50 => 0xab9423a7 case 51 => 0xfc93a039
      case 52 => 0x655b59c3 case 53 => 0x8f0ccc92 case 54 => 0xffeff47d case 55 => 0x85845dd1
      case 56 => 0x6fa87e4f case 57 => 0xfe2ce6e0 case 58 => 0xa3014314 case 59 => 0x4e0811a1
      case 60 => 0xf7537e82 case 61 => 0xbd3af235 case 62 => 0x2ad7d2bb case _ => 0xeb86d391
    )
  }

  /** The shift of line `i` of the code. */
  function Amount(i: nat): (s: nat)
    requires i < 64
    ensures s == Shift(i)
  {
    if i < 16 then (
      match i
      case 0 => 7 case 1 => 12 case 2 => 17 case 3 => 22 case 4 => 7 case 5 => 12 case 6 => 17 case 7 => 22
      case 8 => 7 case 9 => 12 case 10 => 17 case 11 => 22 case 12 => 7 case 13 => 12 case 14 => 17 case _ => 22
    ) else if i < 32 then (
      match i
      case 16 => 5 case 17 => 9 case 18 => 14 case 19 => 20 case 20 => 5 case 21 => 9 case 22 => 14 case 23 => 20
      case 24 => 5 case 25 => 9 case 26 => 14 case 27 => 20 case 28 => 5 case 29 => 9 case 30 => 14 case _ => 20
    ) else if i < 48 then (
      match i
      case 32 => 4 case 33 => 11 case 34 => 16 case 35 => 23 case 36 => 4 case 37 => 11 case 38 => 16 case 39 => 23
      case 40 => 4 case 41 => 11 case 42 => 16 case 43 => 23 case 44 => 4 case 45 => 11 case 46 => 16 case _ => 23
    ) else (
      match i
      case 48 => 6 case 49 => 10 case 50 => 15 case 51 => 21 case 52 => 6 case 53 => 10 case 54 => 15 case 55 => 21
      case 56 => 6 case 57 => 10 case 58 => 15 case 59 => 21 case 60 => 6 case 61 => 10 case 62 => 15 case _ => 21
    )
  }

  // ---------------------------------------------------------------- the sines

  lemma Seeds()
    ensures Sine(0) == 0 && Sine(1) == SINE
  {
  }

  /** One entry of the table, and the sine after it. */
  lemma Entry(i: nat, x: int, y: int, z: int)
    requires i < 64 && Sine(i) == x && Sine(i + 1) == y
    requires UNIT * (z + x) <= TWICE_COSINE * y < UNIT * (z + x + 1)
    requires WORD * Constant(i) <= (if y < 0 then -y else y) < WORD * (Constant(i) + 1)
    ensures Constant(i) == T(i) && Sine(i + 2) == z
  {
    assert Sine(i + 2) == TWICE_COSINE * y / UNIT - x;
  }

  lemma FirstRow(i: nat)
    requires i < 8
    ensures Constant(i) == T(i)
    ensures Sine(8) == 18250438372675540815 && Sine(9) == 7602244225299530311
  {
    hide Sine, T;
    Seeds();
    Entry(0, 0, 15522399902203605024, 16773576919535988476);
    Entry(1, 15522399902203605024, 16773576919535988476, 2603204672360199837);
    Entry(2, 16773576919535988476, 2603204672360199837, -13960541945290126215);
    Entry(3, 2603204672360199837, -13960541945290126215, -17689030680778479891);
    Entry(4, -13960541945290126215, -17689030680778479891, -5154306185503637737);
    Entry(5, -17689030680778479891, -5154306185503637737, 12119263646422417950);
    Entry(6, -5154306185503637737, 12119263646422417950, 18250438372675540815);
    Entry(7, 12119263646422417950, 18250438372675540815, 7602244225299530311);
  }

  lemma SecondRow(i: nat)
    requires 8 <= i < 16
    ensures Constant(i) == T(i)
    ensures Sine(16) == -5310878800492617619 && Sine(17) == -17734653485808442231
  {
    hide Sine, T;
    FirstRow(7);
    Entry(8, 18250438372675540815, 7602244225299530311, -10035418203271369424);
    Entry(9, 7602244225299530311, -10035418203271369424, -18446563416456779438);
    Entry(10, -10035418203271369424, -18446563416456779438, -9898023295237565005);
    Entry(11, -18446563416456779438, -9898023295237565005, 7750713796549941355);
    Entry(12, -9898023295237565005, 7750713796549941355, 18273480368037438698);
    Entry(13, 7750713796549941355, 18273480368037438698, 11995693361623679719);
    Entry(14, 18273480368037438698, 11995693361623679719, -5310878800492617619);
    Entry(15, 11995693361623679719, -5310878800492617619, -17734653485808442231);
  }

  lemma ThirdRow(i: nat)
    requires 16 <= i < 24
    ensures Constant(i) == T(i)
    ensures Sine(24) == -16704972282625291389 && Sine(25) == -2441458861761182184
  {
    hide Sine, T;
    SecondRow(15);
    Entry(16, -5310878800492617619, -17734653485808442231, -13853269543816868763);
    Entry(17, -17734653485808442231, -13853269543816868763, 2764746529134189836);
    Entry(18, -13853269543816868763, 2764746529134189836, 16840867393481146149);
    Entry(19, 2764746529134189836, 16840867393481146149, 15433572441900672359);
    Entry(20, 16840867393481146149, 15433572441900672359, -163277837197328000);
    Entry(21, 15433572441900672359, -163277837197328000, -15610011225770430427);
    Entry(22, -163277837197328000, -15610011225770430427, -16704972282625291389);
    Entry(23, -15610011225770430427, -16704972282625291389, -2441458861761182184);
  }

  lemma FourthRow(i: nat)
    requires 24 <= i < 32
    ensures Constant(i) == T(i)
    ensures Sine(32) == 10172026864280481144 && Sine(33) == 18445118179665624439
  {
    hide Sine, T;
    ThirdRow(23);
    Entry(24, -16704972282625291389, -2441458861761182184, 14066720577241750389);
    Entry(25, -2441458861761182184, 14066720577241750389, 17642021989534236391);
    Entry(26, 14066720577241750389, 17642021989534236391, 4997329745001797176);
    Entry(27, 17642021989534236391, 4997329745001797176, -12241884420718409040);
    Entry(28, 4997329745001797176, -12241884420718409040, -18225966506372621660);
    Entry(29, -12241884420718409040, -18225966506372621660, -7453179039418811128);
    Entry(30, -18225966506372621660, -7453179039418811128, 10172026864280481144);
    Entry(31, -7453179039418811128, 10172026864280481144, 18445118179665624439);
  }

  lemma FifthRow(i: nat)
    requires 32 <= i < 40
    ensures Constant(i) == T(i)
    ensures Sine(40) == 13744911777315421315 && Sine(41) == -2926071775729258484
  {
    hide Sine, T;
    FourthRow(31);
    Entry(32, 10172026864280481144, 18445118179665624439, 9759852904686880250);
    Entry(33, 18445118179665624439, 9759852904686880250, -7898576120993259150);
    Entry(34, 9759852904686880250, -7898576120993259150, -18295090687182249150);
    Entry(35, -7898576120993259150, -18295090687182249150, -11871183247709336910);
    Entry(36, -18295090687182249150, -11871183247709336910, 5467035322941076405);
    Entry(37, -11871183247709336910, 5467035322941076405, 17778886830204603832);
    Entry(38, 5467035322941076405, 17778886830204603832, 13744911777315421315);
    Entry(39, 17778886830204603832, 13744911777315421315, -2926071775729258484);
  }

  lemma SixthRow(i: nat)
    requires 40 <= i < 48
    ensures Constant(i) == T(i)
    ensures Sine(48) == -14171797120872089204 && Sine(49) == -17593631095075550592
  {
    hide Sine, T;
    FifthRow(39);
    Entry(40, 13744911777315421315, -2926071775729258484, -16906838432439822394);
    Entry(41, -2926071775729258484, -16906838432439822394, -15343535804245383020);
    Entry(42, -16906838432439822394, -15343535804245383020, 326542882031538257);
    Entry(43, -15343535804245383020, 326542882031538257, 15696399548498319116);
    Entry(44, 326542882031538257, 15696399548498319116, 16635058857730999693);
    Entry(45, 15696399548498319116, 16635058857730999693, 2279521769670243883);
    Entry(46, 16635058857730999693, 2279521769670243883, -14171797120872089204);
    Entry(47, 2279521769670243883, -14171797120872089204, -17593631095075550592);
  }

  lemma SeventhRow(i: nat)
    requires 48 <= i < 56
    ensures Constant(i) == T(i)
    ensures Sine(56) == -9620917856884019702 && Sine(57) == 8045819614028792129
  {
    hide Sine, T;
    SixthRow(47);
    Entry(48, -14171797120872089204, -17593631095075550592, -4839961777653358918);
    Entry(49, -17593631095075550592, -4839961777653358918, 12363546077516009863);
    Entry(50, -4839961777653358918, 12363546077516009863, 18200066686431147320);
    Entry(51, 12363546077516009863, 18200066686431147320, 7303529917749313877);
    Entry(52, 18200066686431147320, 7303529917749313877, -10307838575357349123);
    Entry(53, 7303529917749313877, -10307838575357349123, -18442227819313585873);
    Entry(54, -10307838575357349123, -18442227819313585873, -9620917856884019702);
    Entry(55, -18442227819313585873, -9620917856884019702, 8045819614028792129);
  }

  lemma EighthRow(i: nat)
    requires 56 <= i < 64
    ensures Constant(i) == T(i)
    ensures Sine(64) == 16971484867765126113 && Sine(65) == 15252297043357160421
  {
    hide Sine, T;
    SeventhRow(55);
    Entry(56, -9620917856884019702, 8045819614028792129, 18315267637001744281);
    Entry(57, 8045819614028792129, 18315267637001744281, 11745743059699521859);
    Entry(58, 18315267637001744281, 11745743059699521859, -5622763518421043625);
    Entry(59, 11745743059699521859, -5622763518421043625, -17821727248407810185);
    Entry(60, -5622763518421043625, -17821727248407810185, -13635477135314549735);
    Entry(61, -17821727248407810185, -13635477135314549735, 3087167772762315407);
    Entry(62, -13635477135314549735, 3087167772762315407, 16971484867765126113);
    Entry(63, 3087167772762315407, 16971484867765126113, 15252297043357160421);
  }

  lemma TableIsRight(i: nat)
    requires i < 64
    ensures Constant(i) == T(i)
  {
    if
    case i < 8 => FirstRow(i);
    case 8 <= i < 16 => SecondRow(i);
    case 16 <= i < 24 => ThirdRow(i);
    case 24 <= i < 32 => FourthRow(i);
    case 32 <= i < 40 => FifthRow(i);
    case 40 <= i < 48 => SixthRow(i);
    case 48 <= i < 56 => SeventhRow(i);
    case 56 <= i < 64 => EighthRow(i);
  }
}
