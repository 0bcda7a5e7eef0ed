/**
 Feed types (core/FeedType.cpp, FeedType.h): 32-bit masks with names, and the
 expressions over them.  A mask is the set of its bits.
 */
module FeedNames {
  const ANY := 0xffff_ffff
  const NDEFS := 102

  datatype FeedDef = FeedDef(name: string, value: nat)

  /** The table of names, in the program's order. */
  function DefAt(i: nat): FeedDef {
    match i
    case 0 => FeedDef("none", 0)
    case 1 => FeedDef("pps", 1)
    case 2 => FeedDef("dds", 2)
    case 3 => FeedDef("ddplus", 3)
    case 4 => FeedDef("hds", 4)
    case 5 => FeedDef("ids", 8)
    case 6 => FeedDef("spare", 16)
    case 7 => FeedDef("wmo", 15)
    case 8 => FeedDef("uniwisc", 32)
    case 9 => FeedDef("unidata", 47)
    case 10 => FeedDef("pcws", 64)
    case 11 => FeedDef("fsl2", 128)
    case 12 => FeedDef("fsl3", 256)
    case 13 => FeedDef("fsl4", 512)
    case 14 => FeedDef("fsl5", 1024)
    case 15 => FeedDef("fsl", 1984)
    case 16 => FeedDef("gpssrc", 2048)
    case 17 => FeedDef("conduit", 4096)
    case 18 => FeedDef("fnexrad", 8192)
    case 19 => FeedDef("nmc", 14336)
    case 20 => FeedDef("lightning", 16384)
    case 21 => FeedDef("wsi", 32768)
    case 22 => FeedDef("satellite", 65536)
    case 23 => FeedDef("faa604", 131072)
    case 24 => FeedDef("gps", 262144)
    case 25 => FeedDef("fnmoc", 524288)
    case 26 => FeedDef("gem", 1048576)
    case 27 => FeedDef("nimage", 2097152)
    case 28 => FeedDef("ntext", 4194304)
    case 29 => FeedDef("ngrid", 8388608)
    case 30 => FeedDef("npoint", 16777216)
    case 31 => FeedDef("ngraph", 33554432)
    case 32 => FeedDef("nother", 67108864)
    case 33 => FeedDef("nport", 130023424)
    case 34 => FeedDef("nexrad3", 134217728)
    case 35 => FeedDef("nexrad2", 268435456)
    case 36 => FeedDef("nxrdsrc", 536870912)
    case 37 => FeedDef("exp", 1073741824)
    case 38 => FeedDef("any", ANY)
    case 39 => FeedDef("ft0", 1)
    case 40 => FeedDef("domestic", 2)
    case 41 => FeedDef("ft1", 2)
    case 42 => FeedDef("hrs", 4)
    case 43 => FeedDef("ft2", 4)
    case 44 => FeedDef("intnl", 8)
    case 45 => FeedDef("ft3", 8)
    case 46 => FeedDef("nps", 16)
    case 47 => FeedDef("ft4", 16)
    case 48 => FeedDef("ft5", 32)
    case 49 => FeedDef("mcidas", 32)
    case 50 => FeedDef("acars", 64)
    case 51 => FeedDef("ft6", 64)
    case 52 => FeedDef("profiler", 128)
    case 53 => FeedDef("ft7", 128)
    case 54 => FeedDef("ft8", 256)
    case 55 => FeedDef("ft9", 512)
    case 56 => FeedDef("ft10", 1024)
    case 57 => FeedDef("profs", 1984)
    case 58 => FeedDef("afos", 2048)
    case 59 => FeedDef("nmc1", 2048)
    case 60 => FeedDef("ft11", 2048)
    case 61 => FeedDef("nmc2", 4096)
    case 62 => FeedDef("nceph", 4096)
    case 63 => FeedDef("ft12", 4096)
    case 64 => FeedDef("nmc3", 8192)
    case 65 => FeedDef("ft13", 8192)
    case 66 => FeedDef("ft14", 16384)
    case 67 => FeedDef("nldn", 16384)
    case 68 => FeedDef("ft15", 32768)
    case 69 => FeedDef("difax", 65536)
    case 70 => FeedDef("ft16", 65536)
    case 71 => FeedDef("faa", 131072)
    case 72 => FeedDef("604", 131072)
    case 73 => FeedDef("ft17", 131072)
    case 74 => FeedDef("ft18", 262144)
    case 75 => FeedDef("nogaps", 524288)
    case 76 => FeedDef("seismic", 524288)
    case 77 => FeedDef("ft19", 524288)
    case 78 => FeedDef("cmc", 1048576)
    case 79 => FeedDef("ft20", 1048576)
    case 80 => FeedDef("image", 2097152)
    case 81 => FeedDef("ft21", 2097152)
    case 82 => FeedDef("text", 4194304)
    case 83 => FeedDef("ft22", 4194304)
    case 84 => FeedDef("grid", 8388608)
    case 85 => FeedDef("ft23", 8388608)
    case 86 => FeedDef("point", 16777216)
    case 87 => FeedDef("nbufr", 16777216)
    case 88 => FeedDef("bufr", 16777216)
    case 89 => FeedDef("ft24", 16777216)
    case 90 => FeedDef("graph", 33554432)
    case 91 => FeedDef("ft25", 33554432)
    case 92 => FeedDef("other", 67108864)
    case 93 => FeedDef("ft26", 67108864)
    case 94 => FeedDef("nnexrad", 134217728)
    case 95 => FeedDef("nexrad", 134217728)
    case 96 => FeedDef("ft27", 134217728)
    case 97 => FeedDef("nexrd2", 268435456)
    case 98 => FeedDef("craft", 268435456)
    case 99 => FeedDef("ft28", 268435456)
    case 100 => FeedDef("ft29", 536870912)
    case 101 => FeedDef("ft30", 1073741824)
    case _ => FeedDef("", 0)
  }

  /** Only the first name stands for no feed, and only one stands for all. */
  lemma ValueRange(i: nat)
    requires 0 < i < 39
    ensures 0 < DefAt(i).value <= ANY && (i < 38 ==> DefAt(i).value < ANY)
  {
  }

  /** The feeds that stand for several others are those others together. */
  lemma Composites()
    ensures DefAt(3) == FeedDef("ddplus", DefAt(1).value + DefAt(2).value)
    ensures DefAt(7) == FeedDef("wmo", DefAt(3).value + DefAt(4).value + DefAt(5).value)
    ensures DefAt(9) == FeedDef("unidata", DefAt(7).value + DefAt(8).value)
    ensures DefAt(15) == FeedDef("fsl", DefAt(10).value + DefAt(11).value + DefAt(12).value + DefAt(13).value
                                        + DefAt(14).value)
    ensures DefAt(19) == FeedDef("nmc", DefAt(16).value + DefAt(17).value + DefAt(18).value)
    ensures DefAt(33) == FeedDef("nport", DefAt(28).value + DefAt(29).value + DefAt(30).value + DefAt(31).value
                                          + DefAt(32).value)
  {
    hide DefAt;
    Composites1();
    Composites2();
    Composites3();
    Composites4();
  }

  lemma Composites1()
    ensures DefAt(3) == FeedDef("ddplus", DefAt(1).value + DefAt(2).value)
    ensures DefAt(7) == FeedDef("wmo", DefAt(3).value + DefAt(4).value + DefAt(5).value)
  {
  }

  lemma Composites2()
    ensures DefAt(9) == FeedDef("unidata", DefAt(7).value + DefAt(8).value)
    ensures DefAt(19) == FeedDef("nmc", DefAt(16).value + DefAt(17).value + DefAt(18).value)
  {
  }

  lemma Composites3()
    ensures DefAt(15) == FeedDef("fsl", DefAt(10).value + DefAt(11).value + DefAt(12).value + DefAt(13).value
                                        + DefAt(14).value)
  {
  }

  lemma Composites4()
    ensures DefAt(33) == FeedDef("nport", DefAt(28).value + DefAt(29).value + DefAt(30).value + DefAt(31).value
                                          + DefAt(32).value)
  {
  }

  /** A number that tells the names of the table apart: length, first character and the last two. */
  function Mark(s: string): int {
    if |s| < 2 then 0
    else ((|s| * 128 + s[0] as int) * 128 + s[|s| - 1] as int) * 128 + s[|s| - 2] as int
  }

  /** Which name has this mark. */
  function IndexOf(mark: int): int {
    if mark < 7993061 then IndexOf0(mark)
    else if mark < 10066225 then IndexOf1(mark)
    else if mark < 10066994 then IndexOf2(mark)
    else if mark < 12220014 then IndexOf3(mark)
    else if mark < 14398576 then IndexOf4(mark)
    else IndexOf5(mark)
  }

  function IndexOf0(mark: int): int {
    match mark
    case 7182896 => 72
    case 7896302 => 38
    case 7926253 => 78
    case 7944676 => 2
    case 7960696 => 37
    case 7968884 => 39
    case 7969012 => 41
    case 7969140 => 43
    case 7969268 => 45
    case 7969396 => 47
    case 7969524 => 48
    case 7969652 => 51
    case 7969780 => 53
    case 7969908 => 54
    case 7970036 => 55
    case 7975137 => 71
    case 7976563 => 15
    case _ => -1
  }

  function IndexOf1(mark: int): int {
    match mark
    case 7993061 => 26
    case 7993840 => 24
    case 8010212 => 4
    case 8010226 => 42
    case 8026596 => 5
    case 8106477 => 19
    case 8108528 => 46
    case 8141296 => 1
    case 8254707 => 21
    case 8255469 => 7
    case 9992687 => 58
    case 10008934 => 88
    case 10065969 => 56
    case 10065970 => 79
    case 10065971 => 101
    case 10066097 => 60
    case 10066098 => 81
    case _ => -1
  }

  function IndexOf2(mark: int): int {
    match mark
    case 10066225 => 63
    case 10066226 => 83
    case 10066284 => 11
    case 10066353 => 65
    case 10066354 => 85
    case 10066412 => 12
    case 10066481 => 66
    case 10066482 => 89
    case 10066540 => 13
    case 10066609 => 68
    case 10066610 => 91
    case 10066668 => 14
    case 10066737 => 70
    case 10066738 => 93
    case 10066865 => 73
    case 10066866 => 96
    case 10066993 => 74
    case _ => -1
  }

  function IndexOf3(mark: int): int {
    match mark
    case 10066994 => 99
    case 10067121 => 77
    case 10067122 => 100
    case 10089065 => 84
    case 10197219 => 59
    case 10197347 => 61
    case 10197475 => 64
    case 10203886 => 0
    case 10205028 => 67
    case 10238455 => 10
    case 10304120 => 82
    case 12089842 => 50
    case 12122726 => 98
    case 12139617 => 69
    case 12169711 => 25
    case 12186736 => 90
    case 12219111 => 80
    case _ => -1
  }

  function IndexOf4(mark: int): int {
    match mark
    case 12220014 => 44
    case 12300905 => 29
    case 12301424 => 62
    case 12302694 => 87
    case 12302962 => 33
    case 12302968 => 28
    case 12319077 => 92
    case 12335590 => 57
    case 12335726 => 86
    case 12382962 => 6
    case 14236149 => 3
    case 14260784 => 23
    case 14283250 => 16
    case 14383585 => 49
    case 14391652 => 97
    case 14398049 => 95
    case 14398183 => 27
    case _ => -1
  }

  function IndexOf5(mark: int): int {
    match mark
    case 14398576 => 31
    case 14399845 => 32
    case 14399984 => 75
    case 14400110 => 30
    case 16317033 => 17
    case 16364129 => 18
    case 16488804 => 35
    case 16488932 => 34
    case 16495090 => 36
    case 16495201 => 94
    case 16577001 => 76
    case 16609524 => 9
    case 16609779 => 8
    case 18428393 => 40
    case 18626917 => 52
    case 20657134 => 20
    case 20771572 => 22
    case _ => -1
  }

  lemma Marked0(i: nat)
    requires 0 <= i < 9
    ensures IndexOf(Mark(DefAt(i).name)) == i
  {
  }

  lemma Marked1(i: nat)
    requires 9 <= i < 18
    ensures IndexOf(Mark(DefAt(i).name)) == i
  {
  }

  lemma Marked2(i: nat)
    requires 18 <= i < 27
    ensures IndexOf(Mark(DefAt(i).name)) == i
  {
  }

  lemma Marked3(i: nat)
    requires 27 <= i < 36
    ensures IndexOf(Mark(DefAt(i).name)) == i
  {
  }

  lemma Marked4(i: nat)
    requires 36 <= i < 45
    ensures IndexOf(Mark(DefAt(i).name)) == i
  {
  }

  lemma Marked5(i: nat)
    requires 45 <= i < 54
    ensures IndexOf(Mark(DefAt(i).name)) == i
  {
  }

  lemma Marked6(i: nat)
    requires 54 <= i < 63
    ensures IndexOf(Mark(DefAt(i).name)) == i
  {
  }

  lemma Marked7(i: nat)
    requires 63 <= i < 72
    ensures IndexOf(Mark(DefAt(i).name)) == i
  {
  }

  lemma Marked8(i: nat)
    requires 72 <= i < 81
    ensures IndexOf(Mark(DefAt(i).name)) == i
  {
  }

  lemma Marked9(i: nat)
    requires 81 <= i < 90
    ensures IndexOf(Mark(DefAt(i).name)) == i
  {
  }

  lemma Marked10(i: nat)
    requires 90 <= i < 99
    ensures IndexOf(Mark(DefAt(i).name)) == i
  {
  }

  lemma Marked11(i: nat)
    requires 99 <= i < 102
    ensures IndexOf(Mark(DefAt(i).name)) == i
  {
  }

  /** No name stands in the table twice. */
  lemma Marked(i: nat)
    requires i < NDEFS
    ensures IndexOf(Mark(DefAt(i).name)) == i
  {
    if {
      case 0 <= i < 9 => Marked0(i);
      case 9 <= i < 18 => Marked1(i);
      case 18 <= i < 27 => Marked2(i);
      case 27 <= i < 36 => Marked3(i);
      case 36 <= i < 45 => Marked4(i);
      case 45 <= i < 54 => Marked5(i);
      case 54 <= i < 63 => Marked6(i);
      case 63 <= i < 72 => Marked7(i);
      case 72 <= i < 81 => Marked8(i);
      case 81 <= i < 90 => Marked9(i);
      case 90 <= i < 99 => Marked10(i);
      case 99 <= i < 102 => Marked11(i);
    }
  }

  predicate IsLower(c: char) {
    'a' <= c <= 'z' || '0' <= c <= '9'
  }

  /** The first `n` characters are lower-case letters and digits. */
  predicate WordTo(s: string, n: nat)
    requires n <= |s|
  {
    n == 0 || (WordTo(s, n - 1) && IsLower(s[n - 1]))
  }

  lemma Worded0(i: nat)
    requires 0 <= i < 8
    ensures |DefAt(i).name| > 0 && WordTo(DefAt(i).name, |DefAt(i).name|)
  {
    assert WordTo("none", 4);
    assert WordTo("pps", 3);
    assert WordTo("dds", 3);
    assert WordTo("ddplus", 6);
    assert WordTo("hds", 3);
    assert WordTo("ids", 3);
    assert WordTo("spare", 5);
    assert WordTo("wmo", 3);
  }

  lemma Worded1(i: nat)
    requires 8 <= i < 16
    ensures |DefAt(i).name| > 0 && WordTo(DefAt(i).name, |DefAt(i).name|)
  {
    assert WordTo("uniwisc", 7);
    assert WordTo("unidata", 7);
    assert WordTo("pcws", 4);
    assert WordTo("fsl2", 4);
    assert WordTo("fsl3", 4);
    assert WordTo("fsl4", 4);
    assert WordTo("fsl5", 4);
    assert WordTo("fsl", 3);
  }

  lemma Worded2(i: nat)
    requires 16 <= i < 24
    ensures |DefAt(i).name| > 0 && WordTo(DefAt(i).name, |DefAt(i).name|)
  {
    assert WordTo("gpssrc", 6);
    assert WordTo("conduit", 7);
    assert WordTo("fnexrad", 7);
    assert WordTo("nmc", 3);
    assert WordTo("lightning", 9);
    assert WordTo("wsi", 3);
    assert WordTo("satellite", 9);
    assert WordTo("faa604", 6);
  }

  lemma Worded3(i: nat)
    requires 24 <= i < 32
    ensures |DefAt(i).name| > 0 && WordTo(DefAt(i).name, |DefAt(i).name|)
  {
    assert WordTo("gps", 3);
    assert WordTo("fnmoc", 5);
    assert WordTo("gem", 3);
    assert WordTo("nimage", 6);
    assert WordTo("ntext", 5);
    assert WordTo("ngrid", 5);
    assert WordTo("npoint", 6);
    assert WordTo("ngraph", 6);
  }

  lemma Worded4(i: nat)
    requires 32 <= i < 39
    ensures |DefAt(i).name| > 0 && WordTo(DefAt(i).name, |DefAt(i).name|)
  {
    assert WordTo("nother", 6);
    assert WordTo("nport", 5);
    assert WordTo("nexrad3", 7);
    assert WordTo("nexrad2", 7);
    assert WordTo("nxrdsrc", 7);
    assert WordTo("exp", 3);
    assert WordTo("any", 3);
  }

  /** The names up to that of all feeds, which are the ones that are printed, are words. */
  lemma Worded(i: nat)
    requires i < 39
    ensures |DefAt(i).name| > 0 && WordTo(DefAt(i).name, |DefAt(i).name|)
  {
    if {
      case 0 <= i < 8 => Worded0(i);
      case 8 <= i < 16 => Worded1(i);
      case 16 <= i < 24 => Worded2(i);
      case 24 <= i < 32 => Worded3(i);
      case 32 <= i < 39 => Worded4(i);
    }
  }
}
