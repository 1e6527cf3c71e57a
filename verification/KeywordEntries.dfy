/** The check of the tables of keywordhash.h, keyword by keyword. */
module KeywordEntries {
  import opened KeywordTables

  predicate Entry(k: nat, next: nat, length: nat, offset: nat, end: nat, first: char, last: char)
    requires k < KEYWORDS
  {
    && KWNext(k) == next && KWLen(k) == length && KWOffset(k) == offset
    && 2 <= length < 100 && end == offset + length - 1 < TEXT_LENGTH
    && KWText(offset) == first && KWText(end) == last
  }

  lemma EntryIsPlaced(k: nat, next: nat, length: nat, offset: nat, end: nat, first: char, last: char,
                      f: bv32, l: bv32, n: bv32, h: nat)
    requires k < KEYWORDS && h < BUCKETS && length < 100 && Entry(k, next, length, offset, end, first, last)
    requires Upper(first) && Upper(last)
    requires Lower(first) == f && Lower(last) == l && Width(length) == n && Bucket(f, l, n) == h
    requires Reaches(KWHash(h), k)
    ensures Placed(k)
  {
    hide KWNext, KWLen, KWOffset, KWText, KWHash, Lower, Width, Bucket, Reaches;
  }

  /** The first step of a chain that leads to k. */
  lemma Here(k: nat)
    requires k < KEYWORDS
    ensures Reaches(k + 1, k)
  {
  }

  /** One step more, past a keyword of another length. */
  lemma Past(i: nat, k: nat, next: nat, length: nat, lengthOfK: nat)
    requires i < KEYWORDS && k < KEYWORDS && KWNext(i) == next && Reaches(next, k)
    requires KWLen(i) == length && KWLen(k) == lengthOfK && length != lengthOfK
    ensures Reaches(i + 1, k)
  {
    hide KWNext, KWLen;
  }

  /** One step more, past a keyword that differs at position p. */
  lemma PastAt(i: nat, k: nat, next: nat, p: nat, length: nat, offset: nat, offsetOfK: nat, a: nat, b: nat)
    requires i < KEYWORDS && k < KEYWORDS && KWNext(i) == next && Reaches(next, k)
    requires KWLen(i) == length && KWLen(k) == length && 2 <= length && p < length
    requires KWOffset(i) == offset && KWOffset(k) == offsetOfK && a == offset + p && b == offsetOfK + p
    requires offset + length <= TEXT_LENGTH && offsetOfK + length <= TEXT_LENGTH && KWText(a) != KWText(b)
    ensures Reaches(i + 1, k)
  {
    hide KWNext, KWLen, KWOffset, KWText;
    assert DifferAt(i, k, p);
  }

  lemma Letters0()
    ensures Lower('A') == 97 && Lower('B') == 98 && Lower('C') == 99 && Lower('D') == 100 && Lower('E') == 101
    ensures Lower('F') == 102 && Lower('G') == 103 && Lower('H') == 104 && Lower('I') == 105
  {
  }

  lemma Letters1()
    ensures Lower('J') == 106 && Lower('K') == 107 && Lower('L') == 108 && Lower('M') == 109 && Lower('N') == 110
    ensures Lower('O') == 111 && Lower('P') == 112 && Lower('Q') == 113 && Lower('R') == 114
  {
  }

  lemma Letters2()
    ensures Lower('S') == 115 && Lower('T') == 116 && Lower('U') == 117 && Lower('V') == 118 && Lower('W') == 119
    ensures Lower('X') == 120 && Lower('Y') == 121 && Lower('Z') == 122
  {
  }

  lemma Widths()
    ensures Width(2) == 2 && Width(3) == 3 && Width(4) == 4 && Width(5) == 5
    ensures Width(6) == 6 && Width(7) == 7 && Width(8) == 8 && Width(9) == 9
    ensures Width(10) == 10 && Width(11) == 11 && Width(12) == 12 && Width(13) == 13
    ensures Width(14) == 14 && Width(15) == 15 && Width(16) == 16 && Width(17) == 17
  {
  }

  lemma Buckets0()
    ensures Bucket(114, 120, 7) == 40 && Bucket(105, 100, 7) == 16 && Bucket(105, 120, 5) == 74 && Bucket(100, 99, 4) == 62
    ensures Bucket(101, 101, 6) == 62 && Bucket(101, 104, 4) == 41 && Bucket(99, 107, 5) == 73 && Bucket(107, 121, 3) == 69
    ensures Bucket(98, 101, 6) == 34 && Bucket(102, 110, 7) == 86 && Bucket(102, 114, 3) == 78 && Bucket(105, 101, 6) == 14
    ensures Bucket(114, 112, 6) == 31 && Bucket(101, 110, 7) == 90 && Bucket(105, 100, 7) == 16 && Bucket(97, 100, 3) == 44
    ensures Bucket(100, 101, 8) == 56 && Bucket(97, 115, 2) == 96 && Bucket(115, 116, 6) == 23 && Bucket(116, 101, 5) == 123
    ensures Bucket(108, 116, 4) == 105 && Bucket(116, 110, 4) == 31 && Bucket(101, 100, 3) == 60 && Bucket(100, 101, 10) == 54
    ensures Bucket(101, 101, 4) == 64 && Bucket(101, 116, 6) == 79 && Bucket(116, 110, 11) == 18 && Bucket(97, 110, 6) == 73
    ensures Bucket(111, 110, 2) == 117 && Bucket(110, 108, 7) == 124 && Bucket(97, 114, 5) == 88 && Bucket(114, 101, 5) == 99
    ensures Bucket(101, 101, 9) == 51 && Bucket(101, 115, 6) == 76
  {
  }

  lemma Buckets1()
    ensures Bucket(115, 116, 9) == 26 && Bucket(105, 116, 9) == 114 && Bucket(116, 114, 7) == 2 && Bucket(114, 115, 10) == 28
    ensures Bucket(99, 116, 10) == 91 && Bucket(105, 111, 4) == 110 && Bucket(111, 116, 6) == 103 && Bucket(111, 102, 2) == 13
    ensures Bucket(115, 116, 3) == 20 && Bucket(116, 121, 9) == 51 && Bucket(116, 112, 4) == 5 && Bucket(111, 114, 2) == 105
    ensures Bucket(117, 101, 6) == 126 && Bucket(113, 121, 5) == 43 && Bucket(119, 116, 7) == 8 && Bucket(119, 104, 4) == 97
    ensures Bucket(111, 114, 5) == 112 && Bucket(114, 101, 7) == 97 && Bucket(97, 104, 6) == 59 && Bucket(104, 103, 6) == 20
    ensures Bucket(103, 112, 5) == 74 && Bucket(117, 101, 6) == 126 && Bucket(98, 110, 5) == 72 && Bucket(105, 114, 5) == 120
    ensures Bucket(114, 101, 5) == 99 && Bucket(98, 110, 7) == 70 && Bucket(110, 103, 7) == 11 && Bucket(103, 98, 4) == 63
    ensures Bucket(98, 121, 2) == 98 && Bucket(99, 101, 7) == 37 && Bucket(97, 99, 3) == 47 && Bucket(100, 101, 6) == 58
    ensures Bucket(99, 101, 4) == 40 && Bucket(99, 101, 7) == 37
  {
  }

  lemma Buckets2()
    ensures Bucket(99, 101, 6) == 38 && Bucket(99, 101, 12) == 48 && Bucket(100, 104, 6) == 47 && Bucket(105, 101, 9) == 3
    ensures Bucket(106, 110, 4) == 103 && Bucket(105, 116, 6) == 0 && Bucket(108, 101, 4) == 28 && Bucket(109, 104, 5) == 10
    ensures Bucket(112, 110, 4) == 15 && Bucket(97, 101, 7) == 45 && Bucket(112, 97, 6) == 102 && Bucket(97, 116, 5) == 94
    ensures Bucket(118, 115, 6) == 8 && Bucket(118, 108, 7) == 28 && Bucket(108, 116, 5) == 106 && Bucket(119, 110, 4) == 19
    ensures Bucket(110, 108, 7) == 124 && Bucket(110, 116, 3) == 104 && Bucket(110, 111, 2) == 120 && Bucket(110, 108, 4) == 121
    ensures Bucket(119, 101, 5) == 119 && Bucket(114, 101, 9) == 111 && Bucket(97, 114, 5) == 88 && Bucket(114, 101, 6) == 98
    ensures Bucket(97, 100, 3) == 44 && Bucket(100, 116, 7) == 76 && Bucket(97, 116, 13) == 86 && Bucket(116, 111, 2) == 32
    ensures Bucket(105, 110, 2) == 109 && Bucket(99, 116, 4) == 85 && Bucket(99, 110, 6) == 65 && Bucket(99, 116, 6) == 87
    ensures Bucket(99, 116, 8) == 89 && Bucket(99, 115, 5) == 81
  {
  }

  lemma Buckets3()
    ensures Bucket(99, 112, 17) == 78 && Bucket(99, 101, 12) == 48 && Bucket(99, 116, 7) == 88 && Bucket(112, 110, 9) == 4
    ensures Bucket(100, 100, 8) == 53 && Bucket(100, 116, 8) == 69 && Bucket(105, 115, 2) == 1 && Bucket(100, 112, 4) == 69
    ensures Bucket(112, 103, 9) == 125 && Bucket(102, 108, 4) == 89 && Bucket(102, 114, 6) == 73 && Bucket(114, 101, 7) == 97
    ensures Bucket(102, 103, 9) == 37 && Bucket(102, 109, 4) == 92 && Bucket(102, 108, 4) == 89 && Bucket(105, 102, 2) == 21
    ensures Bucket(105, 108, 6) == 103 && Bucket(111, 114, 5) == 112 && Bucket(114, 116, 8) == 29 && Bucket(111, 114, 4) == 111
    ensures Bucket(114, 116, 5) == 18 && Bucket(114, 107, 8) == 2 && Bucket(114, 115, 4) == 22 && Bucket(114, 119, 3) == 47
    ensures Bucket(117, 100, 9) == 114 && Bucket(117, 110, 5) == 28 && Bucket(117, 103, 5) == 101 && Bucket(118, 109, 6) == 26
    ensures Bucket(118, 119, 4) == 58 && Bucket(119, 119, 6) == 64 && Bucket(100, 111, 2) == 96 && Bucket(105, 121, 9) == 71
    ensures Bucket(97, 108, 3) == 68 && Bucket(112, 121, 7) == 45
  {
  }

  lemma Keywords0()
    ensures Placed(0)
  {
    hide Bucket, Lower, Width, Placed, Reaches;
    Letters0(); Letters1(); Letters2(); Widths(); Buckets0();
    // REINDEX
    assert Placed(0) by { Here(0); Past(66, 0, 1, 4, 7); EntryIsPlaced(0, 0, 7, 0, 6, 'R', 'X', 114, 120, 7, 40); }
  }

  lemma Keywords1()
    ensures Placed(1)
  {
    hide Bucket, Lower, Width, Placed, Reaches;
    Letters0(); Letters1(); Letters2(); Widths(); Buckets0();
    // INDEXED
    assert Placed(1) by {
      Here(1); PastAt(14, 1, 2, 2, 7, 41, 2, 43, 4);
      EntryIsPlaced(1, 0, 7, 2, 8, 'I', 'D', 105, 100, 7, 16);
    }
  }

  lemma Keywords2()
    ensures Placed(2)
  {
    hide Bucket, Lower, Width, Placed, Reaches;
    Letters0(); Letters1(); Letters2(); Widths(); Buckets0();
    // INDEX
    assert Placed(2) by {
      Here(2); PastAt(54, 2, 3, 0, 5, 209, 2, 209, 2);
      EntryIsPlaced(2, 0, 5, 2, 6, 'I', 'X', 105, 120, 5, 74);
    }
  }

  lemma Keywords3()
    ensures Placed(3) && Placed(4)
  {
    hide Bucket, Lower, Width, Placed, Reaches;
    Letters0(); Letters1(); Letters2(); Widths(); Buckets0();
    // DESC
    assert Placed(3) by { Here(3); Past(4, 3, 4, 6, 4); EntryIsPlaced(3, 0, 4, 8, 11, 'D', 'C', 100, 99, 4, 62); }
    // ESCAPE
    assert Placed(4) by { Here(4); EntryIsPlaced(4, 4, 6, 9, 14, 'E', 'E', 101, 101, 6, 62); }
  }

  lemma Keywords5()
    ensures Placed(5)
  {
    hide Bucket, Lower, Width, Placed, Reaches;
    Letters0(); Letters1(); Letters2(); Widths(); Buckets0();
    // EACH
    assert Placed(5) by { Here(5); EntryIsPlaced(5, 0, 4, 14, 17, 'E', 'H', 101, 104, 4, 41); }
  }

  lemma Keywords6()
    ensures Placed(6)
  {
    hide Bucket, Lower, Width, Placed, Reaches;
    Letters0(); Letters1(); Letters2(); Widths(); Buckets0();
    // CHECK
    assert Placed(6) by {
      Here(6); Past(27, 6, 7, 6, 5); Past(112, 6, 28, 6, 5);
      EntryIsPlaced(6, 0, 5, 16, 20, 'C', 'K', 99, 107, 5, 73);
    }
  }

  lemma Keywords7()
    ensures Placed(7)
  {
    hide Bucket, Lower, Width, Placed, Reaches;
    Letters0(); Letters1(); Letters2(); Widths(); Buckets0();
    // KEY
    assert Placed(7) by {
      Here(7); Past(107, 7, 8, 8, 3); Past(109, 7, 108, 4, 3);
      EntryIsPlaced(7, 0, 3, 20, 22, 'K', 'Y', 107, 121, 3, 69);
    }
  }

  lemma Keywords8()
    ensures Placed(8) && Placed(9)
  {
    hide Bucket, Lower, Width, Placed, Reaches;
    Letters0(); Letters1(); Letters2(); Widths(); Buckets0();
    // BEFORE
    assert Placed(8) by { Here(8); EntryIsPlaced(8, 0, 6, 23, 28, 'B', 'E', 98, 101, 6, 34); }
    // FOREIGN
    assert Placed(9) by {
      Here(9); Past(94, 9, 10, 13, 7);
      EntryIsPlaced(9, 0, 7, 25, 31, 'F', 'N', 102, 110, 7, 86);
    }
  }

  lemma Keywords10()
    ensures Placed(10) && Placed(11)
  {
    hide Bucket, Lower, Width, Placed, Reaches;
    Letters0(); Letters1(); Letters2(); Widths(); Buckets0();
    // FOR
    assert Placed(10) by {
      Here(10); Past(102, 10, 11, 17, 3);
      EntryIsPlaced(10, 0, 3, 25, 27, 'F', 'R', 102, 114, 3, 78);
    }
    // IGNORE
    assert Placed(11) by { Here(11); EntryIsPlaced(11, 0, 6, 29, 34, 'I', 'E', 105, 101, 6, 14); }
  }

  lemma Keywords12()
    ensures Placed(12) && Placed(13)
  {
    hide Bucket, Lower, Width, Placed, Reaches;
    Letters0(); Letters1(); Letters2(); Widths(); Buckets0();
    // REGEXP
    assert Placed(12) by {
      Here(12); Past(21, 12, 13, 4, 6);
      EntryIsPlaced(12, 0, 6, 33, 38, 'R', 'P', 114, 112, 6, 31);
    }
    // EXPLAIN
    assert Placed(13) by { Here(13); EntryIsPlaced(13, 0, 7, 36, 42, 'E', 'N', 101, 110, 7, 90); }
  }

  lemma Keywords14()
    ensures Placed(14) && Placed(15)
  {
    hide Bucket, Lower, Width, Placed, Reaches;
    Letters0(); Letters1(); Letters2(); Widths(); Buckets0();
    // INSTEAD
    assert Placed(14) by { Here(14); EntryIsPlaced(14, 2, 7, 41, 47, 'I', 'D', 105, 100, 7, 16); }
    // ADD
    assert Placed(15) by {
      Here(15); PastAt(92, 15, 16, 1, 3, 387, 46, 388, 47);
      EntryIsPlaced(15, 0, 3, 46, 48, 'A', 'D', 97, 100, 3, 44);
    }
  }

  lemma Keywords16()
    ensures Placed(16) && Placed(17)
  {
    hide Bucket, Lower, Width, Placed, Reaches;
    Letters0(); Letters1(); Letters2(); Widths(); Buckets0();
    // DATABASE
    assert Placed(16) by { Here(16); EntryIsPlaced(16, 0, 8, 48, 55, 'D', 'E', 100, 101, 8, 56); }
    // AS
    assert Placed(17) by {
      Here(17); PastAt(132, 17, 18, 0, 2, 594, 53, 594, 53);
      EntryIsPlaced(17, 0, 2, 53, 54, 'A', 'S', 97, 115, 2, 96);
    }
  }

  lemma Keywords18()
    ensures Placed(18) && Placed(19)
  {
    hide Bucket, Lower, Width, Placed, Reaches;
    Letters0(); Letters1(); Letters2(); Widths(); Buckets0();
    // SELECT
    assert Placed(18) by { Here(18); EntryIsPlaced(18, 0, 6, 54, 59, 'S', 'T', 115, 116, 6, 23); }
    // TABLE
    assert Placed(19) by { Here(19); EntryIsPlaced(19, 0, 5, 59, 63, 'T', 'E', 116, 101, 5, 123); }
  }

  lemma Keywords20()
    ensures Placed(20) && Placed(21)
  {
    hide Bucket, Lower, Width, Placed, Reaches;
    Letters0(); Letters1(); Letters2(); Widths(); Buckets0();
    // LEFT
    assert Placed(20) by {
      Here(20); Past(45, 20, 21, 2, 4);
      EntryIsPlaced(20, 0, 4, 62, 65, 'L', 'T', 108, 116, 4, 105);
    }
    // THEN
    assert Placed(21) by { Here(21); EntryIsPlaced(21, 13, 4, 65, 68, 'T', 'N', 116, 110, 4, 31); }
  }

  lemma Keywords22()
    ensures Placed(22) && Placed(23)
  {
    hide Bucket, Lower, Width, Placed, Reaches;
    Letters0(); Letters1(); Letters2(); Widths(); Buckets0();
    // END
    assert Placed(22) by { Here(22); EntryIsPlaced(22, 0, 3, 67, 69, 'E', 'D', 101, 100, 3, 60); }
    // DEFERRABLE
    assert Placed(23) by { Here(23); EntryIsPlaced(23, 0, 10, 69, 78, 'D', 'E', 100, 101, 10, 54); }
  }

  lemma Keywords24()
    ensures Placed(24) && Placed(25)
  {
    hide Bucket, Lower, Width, Placed, Reaches;
    Letters0(); Letters1(); Letters2(); Widths(); Buckets0();
    // ELSE
    assert Placed(24) by {
      Here(24); Past(131, 24, 25, 6, 4);
      EntryIsPlaced(24, 0, 4, 78, 81, 'E', 'E', 101, 101, 4, 64);
    }
    // EXCEPT
    assert Placed(25) by { Here(25); EntryIsPlaced(25, 0, 6, 81, 86, 'E', 'T', 101, 116, 6, 79); }
  }

  lemma Keywords26()
    ensures Placed(26)
  {
    hide Bucket, Lower, Width, Placed, Reaches;
    Letters0(); Letters1(); Letters2(); Widths(); Buckets0();
    // TRANSACTION
    assert Placed(26) by {
      Here(26); Past(122, 26, 27, 5, 11);
      EntryIsPlaced(26, 0, 11, 86, 96, 'T', 'N', 116, 110, 11, 18);
    }
  }

  lemma Keywords27()
    ensures Placed(27) && Placed(28)
  {
    hide Bucket, Lower, Width, Placed, Reaches;
    Letters0(); Letters1(); Letters2(); Widths(); Buckets0();
    // ACTION
    assert Placed(27) by {
      Here(27); PastAt(112, 27, 28, 0, 6, 494, 91, 494, 91);
      EntryIsPlaced(27, 7, 6, 91, 96, 'A', 'N', 97, 110, 6, 73);
    }
    // ON
    assert Placed(28) by { Here(28); EntryIsPlaced(28, 0, 2, 95, 96, 'O', 'N', 111, 110, 2, 117); }
  }

  lemma Keywords29()
    ensures Placed(29)
  {
    hide Bucket, Lower, Width, Placed, Reaches;
    Letters0(); Letters1(); Letters2(); Widths(); Buckets0();
    // NATURAL
    assert Placed(29) by {
      Here(29); PastAt(84, 29, 30, 1, 7, 358, 96, 359, 97);
      EntryIsPlaced(29, 0, 7, 96, 102, 'N', 'L', 110, 108, 7, 124);
    }
  }

  lemma Keywords30()
    ensures Placed(30)
  {
    hide Bucket, Lower, Width, Placed, Reaches;
    Letters0(); Letters1(); Letters2(); Widths(); Buckets0();
    // ALTER
    assert Placed(30) by {
      Here(30); PastAt(90, 30, 31, 1, 5, 377, 101, 378, 102); Past(104, 30, 91, 7, 5);
      EntryIsPlaced(30, 0, 5, 101, 105, 'A', 'R', 97, 114, 5, 88);
    }
  }

  lemma Keywords31()
    ensures Placed(31)
  {
    hide Bucket, Lower, Width, Placed, Reaches;
    Letters0(); Letters1(); Letters2(); Widths(); Buckets0();
    // RAISE
    assert Placed(31) by {
      Here(31); PastAt(58, 31, 32, 2, 5, 225, 105, 227, 107);
      EntryIsPlaced(31, 0, 5, 105, 109, 'R', 'E', 114, 101, 5, 99);
    }
  }

  lemma Keywords32()
    ensures Placed(32)
  {
    hide Bucket, Lower, Width, Placed, Reaches;
    Letters0(); Letters1(); Letters2(); Widths(); Buckets0();
    // EXCLUSIVE
    assert Placed(32) by {
      Here(32); PastAt(43, 32, 33, 0, 9, 167, 109, 167, 109);
      EntryIsPlaced(32, 0, 9, 109, 117, 'E', 'E', 101, 101, 9, 51);
    }
  }

  lemma Keywords33()
    ensures Placed(33)
  {
    hide Bucket, Lower, Width, Placed, Reaches;
    Letters0(); Letters1(); Letters2(); Widths(); Buckets0();
    // EXISTS
    assert Placed(33) by {
      Here(33); Past(93, 33, 34, 7, 6);
      EntryIsPlaced(33, 0, 6, 117, 122, 'E', 'S', 101, 115, 6, 76);
    }
  }

  lemma Keywords34()
    ensures Placed(34)
  {
    hide Bucket, Lower, Width, Placed, Reaches;
    Letters0(); Letters1(); Letters2(); Widths(); Buckets1();
    // SAVEPOINT
    assert Placed(34) by {
      Here(34); Past(129, 34, 35, 6, 9);
      EntryIsPlaced(34, 0, 9, 122, 130, 'S', 'T', 115, 116, 9, 26);
    }
  }

  lemma Keywords35()
    ensures Placed(35)
  {
    hide Bucket, Lower, Width, Placed, Reaches;
    Letters0(); Letters1(); Letters2(); Widths(); Buckets1();
    // INTERSECT
    assert Placed(35) by {
      Here(35); PastAt(126, 35, 36, 0, 9, 563, 128, 563, 128);
      EntryIsPlaced(35, 0, 9, 128, 136, 'I', 'T', 105, 116, 9, 114);
    }
  }

  lemma Keywords36()
    ensures Placed(36)
  {
    hide Bucket, Lower, Width, Placed, Reaches;
    Letters0(); Letters1(); Letters2(); Widths(); Buckets1();
    // TRIGGER
    assert Placed(36) by {
      Here(36); Past(123, 36, 37, 8, 7);
      EntryIsPlaced(36, 0, 7, 136, 142, 'T', 'R', 116, 114, 7, 2);
    }
  }

  lemma Keywords37()
    ensures Placed(37)
  {
    hide Bucket, Lower, Width, Placed, Reaches;
    Letters0(); Letters1(); Letters2(); Widths(); Buckets1();
    // REFERENCES
    assert Placed(37) by {
      Here(37); Past(74, 37, 38, 4, 10); Past(81, 37, 75, 7, 10);
      Past(127, 37, 82, 5, 10);
      EntryIsPlaced(37, 0, 10, 142, 151, 'R', 'S', 114, 115, 10, 28);
    }
  }

  lemma Keywords38()
    ensures Placed(38) && Placed(39)
  {
    hide Bucket, Lower, Width, Placed, Reaches;
    Letters0(); Letters1(); Letters2(); Widths(); Buckets1();
    // CONSTRAINT
    assert Placed(38) by { Here(38); EntryIsPlaced(38, 0, 10, 152, 161, 'C', 'T', 99, 116, 10, 91); }
    // INTO
    assert Placed(39) by { Here(39); EntryIsPlaced(39, 0, 4, 159, 162, 'I', 'O', 105, 111, 4, 110); }
  }

  lemma Keywords40()
    ensures Placed(40)
  {
    hide Bucket, Lower, Width, Placed, Reaches;
    Letters0(); Letters1(); Letters2(); Widths(); Buckets1();
    // OFFSET
    assert Placed(40) by {
      Here(40); Past(72, 40, 41, 4, 6); PastAt(118, 40, 73, 0, 6, 525, 162, 525, 162);
      EntryIsPlaced(40, 0, 6, 162, 167, 'O', 'T', 111, 116, 6, 103);
    }
  }

  lemma Keywords41()
    ensures Placed(41) && Placed(42)
  {
    hide Bucket, Lower, Width, Placed, Reaches;
    Letters0(); Letters1(); Letters2(); Widths(); Buckets1();
    // OF
    assert Placed(41) by { Here(41); EntryIsPlaced(41, 0, 2, 162, 163, 'O', 'F', 111, 102, 2, 13); }
    // SET
    assert Placed(42) by {
      Here(42); Past(53, 42, 43, 6, 3);
      EntryIsPlaced(42, 0, 3, 165, 167, 'S', 'T', 115, 116, 3, 20);
    }
  }

  lemma Keywords43()
    ensures Placed(43) && Placed(44) && Placed(45)
  {
    hide Bucket, Lower, Width, Placed, Reaches;
    Letters0(); Letters1(); Letters2(); Widths(); Buckets1();
    // TEMPORARY
    assert Placed(43) by { Here(43); EntryIsPlaced(43, 33, 9, 167, 175, 'T', 'Y', 116, 121, 9, 51); }
    // TEMP
    assert Placed(44) by { Here(44); EntryIsPlaced(44, 0, 4, 167, 170, 'T', 'P', 116, 112, 4, 5); }
    // OR
    assert Placed(45) by { Here(45); EntryIsPlaced(45, 21, 2, 171, 172, 'O', 'R', 111, 114, 2, 105); }
  }

  lemma Keywords46()
    ensures Placed(46) && Placed(47)
  {
    hide Bucket, Lower, Width, Placed, Reaches;
    Letters0(); Letters1(); Letters2(); Widths(); Buckets1();
    // UNIQUE
    assert Placed(46) by {
      Here(46); PastAt(55, 46, 47, 1, 6, 212, 176, 213, 177);
      EntryIsPlaced(46, 0, 6, 176, 181, 'U', 'E', 117, 101, 6, 126);
    }
    // QUERY
    assert Placed(47) by { Here(47); EntryIsPlaced(47, 0, 5, 179, 183, 'Q', 'Y', 113, 121, 5, 43); }
  }

  lemma Keywords48()
    ensures Placed(48)
  {
    hide Bucket, Lower, Width, Placed, Reaches;
    Letters0(); Letters1(); Letters2(); Widths(); Buckets1();
    // WITHOUT
    assert Placed(48) by {
      Here(48); Past(80, 48, 49, 6, 7);
      EntryIsPlaced(48, 0, 7, 184, 190, 'W', 'T', 119, 116, 7, 8);
    }
  }

  lemma Keywords49()
    ensures Placed(49)
  {
    hide Bucket, Lower, Width, Placed, Reaches;
    Letters0(); Letters1(); Letters2(); Widths(); Buckets1();
    // WITH
    assert Placed(49) by {
      Here(49); Past(51, 49, 50, 7, 4); Past(113, 49, 52, 7, 4);
      EntryIsPlaced(49, 0, 4, 184, 187, 'W', 'H', 119, 104, 4, 97);
    }
  }

  lemma Keywords50()
    ensures Placed(50)
  {
    hide Bucket, Lower, Width, Placed, Reaches;
    Letters0(); Letters1(); Letters2(); Widths(); Buckets1();
    // OUTER
    assert Placed(50) by {
      Here(50); PastAt(119, 50, 51, 1, 5, 531, 188, 532, 189);
      EntryIsPlaced(50, 0, 5, 188, 192, 'O', 'R', 111, 114, 5, 112);
    }
  }

  lemma Keywords51()
    ensures Placed(51) && Placed(52)
  {
    hide Bucket, Lower, Width, Placed, Reaches;
    Letters0(); Letters1(); Letters2(); Widths(); Buckets1();
    // RELEASE
    assert Placed(51) by {
      Here(51); PastAt(113, 51, 52, 2, 7, 499, 192, 501, 194);
      EntryIsPlaced(51, 50, 7, 192, 198, 'R', 'E', 114, 101, 7, 97);
    }
    // ATTACH
    assert Placed(52) by { Here(52); EntryIsPlaced(52, 0, 6, 199, 204, 'A', 'H', 97, 104, 6, 59); }
  }

  lemma Keywords53()
    ensures Placed(53) && Placed(54) && Placed(55)
  {
    hide Bucket, Lower, Width, Placed, Reaches;
    Letters0(); Letters1(); Letters2(); Widths(); Buckets1();
    // HAVING
    assert Placed(53) by { Here(53); EntryIsPlaced(53, 43, 6, 204, 209, 'H', 'G', 104, 103, 6, 20); }
    // GROUP
    assert Placed(54) by { Here(54); EntryIsPlaced(54, 3, 5, 209, 213, 'G', 'P', 103, 112, 5, 74); }
    // UPDATE
    assert Placed(55) by { Here(55); EntryIsPlaced(55, 47, 6, 212, 217, 'U', 'E', 117, 101, 6, 126); }
  }

  lemma Keywords56()
    ensures Placed(56) && Placed(57)
  {
    hide Bucket, Lower, Width, Placed, Reaches;
    Letters0(); Letters1(); Letters2(); Widths(); Buckets1();
    // BEGIN
    assert Placed(56) by { Here(56); EntryIsPlaced(56, 0, 5, 218, 222, 'B', 'N', 98, 110, 5, 72); }
    // INNER
    assert Placed(57) by {
      Here(57); Past(86, 57, 58, 2, 5);
      EntryIsPlaced(57, 0, 5, 221, 225, 'I', 'R', 105, 114, 5, 120);
    }
  }

  lemma Keywords58()
    ensures Placed(58) && Placed(59) && Placed(60)
  {
    hide Bucket, Lower, Width, Placed, Reaches;
    Letters0(); Letters1(); Letters2(); Widths(); Buckets1();
    // RANGE
    assert Placed(58) by { Here(58); EntryIsPlaced(58, 32, 5, 225, 229, 'R', 'E', 114, 101, 5, 99); }
    // BETWEEN
    assert Placed(59) by { Here(59); EntryIsPlaced(59, 0, 7, 230, 236, 'B', 'N', 98, 110, 7, 70); }
    // NOTHING
    assert Placed(60) by { Here(60); EntryIsPlaced(60, 0, 7, 236, 242, 'N', 'G', 110, 103, 7, 11); }
  }

  lemma Keywords61()
    ensures Placed(61) && Placed(62)
  {
    hide Bucket, Lower, Width, Placed, Reaches;
    Letters0(); Letters1(); Letters2(); Widths(); Buckets1();
    // GLOB
    assert Placed(61) by { Here(61); EntryIsPlaced(61, 0, 4, 242, 245, 'G', 'B', 103, 98, 4, 63); }
    // BY
    assert Placed(62) by {
      Here(62); Past(91, 62, 63, 6, 2);
      EntryIsPlaced(62, 0, 2, 245, 246, 'B', 'Y', 98, 121, 2, 98);
    }
  }

  lemma Keywords63()
    ensures Placed(63)
  {
    hide Bucket, Lower, Width, Placed, Reaches;
    Letters0(); Letters1(); Letters2(); Widths(); Buckets1();
    // CASCADE
    assert Placed(63) by {
      Here(63); PastAt(67, 63, 64, 1, 7, 262, 247, 263, 248); Past(114, 63, 68, 9, 7);
      EntryIsPlaced(63, 0, 7, 247, 253, 'C', 'E', 99, 101, 7, 37);
    }
  }

  lemma Keywords64()
    ensures Placed(64)
  {
    hide Bucket, Lower, Width, Placed, Reaches;
    Letters0(); Letters1(); Letters2(); Widths(); Buckets1();
    // ASC
    assert Placed(64) by {
      Here(64); Past(70, 64, 65, 6, 3); PastAt(125, 64, 71, 0, 3, 559, 248, 559, 248);
      EntryIsPlaced(64, 0, 3, 248, 250, 'A', 'C', 97, 99, 3, 47);
    }
  }

  lemma Keywords65()
    ensures Placed(65) && Placed(66)
  {
    hide Bucket, Lower, Width, Placed, Reaches;
    Letters0(); Letters1(); Letters2(); Widths(); Buckets1();
    // DELETE
    assert Placed(65) by {
      Here(65); Past(130, 65, 66, 4, 6);
      EntryIsPlaced(65, 0, 6, 252, 257, 'D', 'E', 100, 101, 6, 58);
    }
    // CASE
    assert Placed(66) by { Here(66); EntryIsPlaced(66, 1, 4, 258, 261, 'C', 'E', 99, 101, 4, 40); }
  }

  lemma Keywords67()
    ensures Placed(67)
  {
    hide Bucket, Lower, Width, Placed, Reaches;
    Letters0(); Letters1(); Letters2(); Widths(); Buckets1();
    // COLLATE
    assert Placed(67) by {
      Here(67); Past(114, 67, 68, 9, 7);
      EntryIsPlaced(67, 64, 7, 262, 268, 'C', 'E', 99, 101, 7, 37);
    }
  }

  lemma Keywords68()
    ensures Placed(68) && Placed(69)
  {
    hide Bucket, Lower, Width, Placed, Reaches;
    Letters0(); Letters1(); Letters2(); Widths(); Buckets2();
    // CREATE
    assert Placed(68) by { Here(68); EntryIsPlaced(68, 0, 6, 269, 274, 'C', 'E', 99, 101, 6, 38); }
    // CURRENT_DATE
    assert Placed(69) by {
      Here(69); PastAt(103, 69, 70, 8, 12, 438, 275, 446, 283);
      EntryIsPlaced(69, 0, 12, 275, 286, 'C', 'E', 99, 101, 12, 48);
    }
  }

  lemma Keywords70()
    ensures Placed(70) && Placed(71)
  {
    hide Bucket, Lower, Width, Placed, Reaches;
    Letters0(); Letters1(); Letters2(); Widths(); Buckets2();
    // DETACH
    assert Placed(70) by {
      Here(70); Past(125, 70, 71, 3, 6);
      EntryIsPlaced(70, 65, 6, 287, 292, 'D', 'H', 100, 104, 6, 47);
    }
    // IMMEDIATE
    assert Placed(71) by { Here(71); EntryIsPlaced(71, 0, 9, 293, 301, 'I', 'E', 105, 101, 9, 3); }
  }

  lemma Keywords72()
    ensures Placed(72) && Placed(73)
  {
    hide Bucket, Lower, Width, Placed, Reaches;
    Letters0(); Letters1(); Letters2(); Widths(); Buckets2();
    // JOIN
    assert Placed(72) by {
      Here(72); Past(118, 72, 73, 6, 4);
      EntryIsPlaced(72, 41, 4, 302, 305, 'J', 'N', 106, 110, 4, 103);
    }
    // INSERT
    assert Placed(73) by { Here(73); EntryIsPlaced(73, 0, 6, 304, 309, 'I', 'T', 105, 116, 6, 0); }
  }

  lemma Keywords74()
    ensures Placed(74)
  {
    hide Bucket, Lower, Width, Placed, Reaches;
    Letters0(); Letters1(); Letters2(); Widths(); Buckets2();
    // LIKE
    assert Placed(74) by {
      Here(74); Past(81, 74, 75, 7, 4); Past(127, 74, 82, 5, 4);
      EntryIsPlaced(74, 38, 4, 310, 313, 'L', 'E', 108, 101, 4, 28);
    }
  }

  lemma Keywords75()
    ensures Placed(75) && Placed(76)
  {
    hide Bucket, Lower, Width, Placed, Reaches;
    Letters0(); Letters1(); Letters2(); Widths(); Buckets2();
    // MATCH
    assert Placed(75) by { Here(75); EntryIsPlaced(75, 0, 5, 314, 318, 'M', 'H', 109, 104, 5, 10); }
    // PLAN
    assert Placed(76) by { Here(76); EntryIsPlaced(76, 0, 4, 319, 322, 'P', 'N', 112, 110, 4, 15); }
  }

  lemma Keywords77()
    ensures Placed(77) && Placed(78)
  {
    hide Bucket, Lower, Width, Placed, Reaches;
    Letters0(); Letters1(); Letters2(); Widths(); Buckets2();
    // ANALYZE
    assert Placed(77) by {
      Here(77); PastAt(135, 77, 78, 0, 7, 606, 321, 606, 321);
      EntryIsPlaced(77, 0, 7, 321, 327, 'A', 'E', 97, 101, 7, 45);
    }
    // PRAGMA
    assert Placed(78) by { Here(78); EntryIsPlaced(78, 0, 6, 328, 333, 'P', 'A', 112, 97, 6, 102); }
  }

  lemma Keywords79()
    ensures Placed(79) && Placed(80)
  {
    hide Bucket, Lower, Width, Placed, Reaches;
    Letters0(); Letters1(); Letters2(); Widths(); Buckets2();
    // ABORT
    assert Placed(79) by { Here(79); EntryIsPlaced(79, 0, 5, 333, 337, 'A', 'T', 97, 116, 5, 94); }
    // VALUES
    assert Placed(80) by { Here(80); EntryIsPlaced(80, 49, 6, 338, 343, 'V', 'S', 118, 115, 6, 8); }
  }

  lemma Keywords81()
    ensures Placed(81) && Placed(82)
  {
    hide Bucket, Lower, Width, Placed, Reaches;
    Letters0(); Letters1(); Letters2(); Widths(); Buckets2();
    // VIRTUAL
    assert Placed(81) by {
      Here(81); Past(127, 81, 82, 5, 7);
      EntryIsPlaced(81, 75, 7, 344, 350, 'V', 'L', 118, 108, 7, 28);
    }
    // LIMIT
    assert Placed(82) by { Here(82); EntryIsPlaced(82, 0, 5, 350, 354, 'L', 'T', 108, 116, 5, 106); }
  }

  lemma Keywords83()
    ensures Placed(83) && Placed(84) && Placed(85)
  {
    hide Bucket, Lower, Width, Placed, Reaches;
    Letters0(); Letters1(); Letters2(); Widths(); Buckets2();
    // WHEN
    assert Placed(83) by { Here(83); EntryIsPlaced(83, 0, 4, 355, 358, 'W', 'N', 119, 110, 4, 19); }
    // NOTNULL
    assert Placed(84) by { Here(84); EntryIsPlaced(84, 30, 7, 358, 364, 'N', 'L', 110, 108, 7, 124); }
    // NOT
    assert Placed(85) by { Here(85); EntryIsPlaced(85, 0, 3, 358, 360, 'N', 'T', 110, 116, 3, 104); }
  }

  lemma Keywords86()
    ensures Placed(86) && Placed(87) && Placed(88)
  {
    hide Bucket, Lower, Width, Placed, Reaches;
    Letters0(); Letters1(); Letters2(); Widths(); Buckets2();
    // NO
    assert Placed(86) by { Here(86); EntryIsPlaced(86, 58, 2, 358, 359, 'N', 'O', 110, 111, 2, 120); }
    // NULL
    assert Placed(87) by { Here(87); EntryIsPlaced(87, 0, 4, 361, 364, 'N', 'L', 110, 108, 4, 121); }
    // WHERE
    assert Placed(88) by { Here(88); EntryIsPlaced(88, 0, 5, 365, 369, 'W', 'E', 119, 101, 5, 119); }
  }

  lemma Keywords89()
    ensures Placed(89)
  {
    hide Bucket, Lower, Width, Placed, Reaches;
    Letters0(); Letters1(); Letters2(); Widths(); Buckets2();
    // RECURSIVE
    assert Placed(89) by {
      Here(89); Past(121, 89, 90, 4, 9);
      EntryIsPlaced(89, 0, 9, 368, 376, 'R', 'E', 114, 101, 9, 111);
    }
  }

  lemma Keywords90()
    ensures Placed(90) && Placed(91)
  {
    hide Bucket, Lower, Width, Placed, Reaches;
    Letters0(); Letters1(); Letters2(); Widths(); Buckets2();
    // AFTER
    assert Placed(90) by {
      Here(90); Past(104, 90, 91, 7, 5);
      EntryIsPlaced(90, 31, 5, 377, 381, 'A', 'R', 97, 114, 5, 88);
    }
    // RENAME
    assert Placed(91) by { Here(91); EntryIsPlaced(91, 63, 6, 381, 386, 'R', 'E', 114, 101, 6, 98); }
  }

  lemma Keywords92()
    ensures Placed(92) && Placed(93) && Placed(94)
  {
    hide Bucket, Lower, Width, Placed, Reaches;
    Letters0(); Letters1(); Letters2(); Widths(); Buckets2();
    // AND
    assert Placed(92) by { Here(92); EntryIsPlaced(92, 16, 3, 387, 389, 'A', 'D', 97, 100, 3, 44); }
    // DEFAULT
    assert Placed(93) by { Here(93); EntryIsPlaced(93, 34, 7, 389, 395, 'D', 'T', 100, 116, 7, 76); }
    // AUTOINCREMENT
    assert Placed(94) by { Here(94); EntryIsPlaced(94, 10, 13, 396, 408, 'A', 'T', 97, 116, 13, 86); }
  }

  lemma Keywords95()
    ensures Placed(95) && Placed(96) && Placed(97)
  {
    hide Bucket, Lower, Width, Placed, Reaches;
    Letters0(); Letters1(); Letters2(); Widths(); Buckets2();
    // TO
    assert Placed(95) by { Here(95); EntryIsPlaced(95, 0, 2, 398, 399, 'T', 'O', 116, 111, 2, 32); }
    // IN
    assert Placed(96) by { Here(96); EntryIsPlaced(96, 0, 2, 400, 401, 'I', 'N', 105, 110, 2, 109); }
    // CAST
    assert Placed(97) by { Here(97); EntryIsPlaced(97, 0, 4, 409, 412, 'C', 'T', 99, 116, 4, 85); }
  }

  lemma Keywords98()
    ensures Placed(98) && Placed(99)
  {
    hide Bucket, Lower, Width, Placed, Reaches;
    Letters0(); Letters1(); Letters2(); Widths(); Buckets2();
    // COLUMN
    assert Placed(98) by { Here(98); EntryIsPlaced(98, 0, 6, 413, 418, 'C', 'N', 99, 110, 6, 65); }
    // COMMIT
    assert Placed(99) by { Here(99); EntryIsPlaced(99, 0, 6, 419, 424, 'C', 'T', 99, 116, 6, 87); }
  }

  lemma Keywords100()
    ensures Placed(100)
  {
    hide Bucket, Lower, Width, Placed, Reaches;
    Letters0(); Letters1(); Letters2(); Widths(); Buckets2();
    // CONFLICT
    assert Placed(100) by {
      Here(100); Past(111, 100, 101, 4, 8); Past(116, 100, 112, 4, 8);
      EntryIsPlaced(100, 0, 8, 425, 432, 'C', 'T', 99, 116, 8, 89);
    }
  }

  lemma Keywords101()
    ensures Placed(101)
  {
    hide Bucket, Lower, Width, Placed, Reaches;
    Letters0(); Letters1(); Letters2(); Widths(); Buckets2();
    // CROSS
    assert Placed(101) by { Here(101); EntryIsPlaced(101, 0, 5, 433, 437, 'C', 'S', 99, 115, 5, 81); }
  }

  lemma Keywords102()
    ensures Placed(102) && Placed(103) && Placed(104)
  {
    hide Bucket, Lower, Width, Placed, Reaches;
    Letters0(); Letters1(); Letters2(); Widths(); Buckets3();
    // CURRENT_TIMESTAMP
    assert Placed(102) by { Here(102); EntryIsPlaced(102, 11, 17, 438, 454, 'C', 'P', 99, 112, 17, 78); }
    // CURRENT_TIME
    assert Placed(103) by { Here(103); EntryIsPlaced(103, 70, 12, 438, 449, 'C', 'E', 99, 101, 12, 48); }
    // CURRENT
    assert Placed(104) by { Here(104); EntryIsPlaced(104, 91, 7, 438, 444, 'C', 'T', 99, 116, 7, 88); }
  }

  lemma Keywords105()
    ensures Placed(105) && Placed(106)
  {
    hide Bucket, Lower, Width, Placed, Reaches;
    Letters0(); Letters1(); Letters2(); Widths(); Buckets3();
    // PARTITION
    assert Placed(105) by { Here(105); EntryIsPlaced(105, 0, 9, 454, 462, 'P', 'N', 112, 110, 9, 4); }
    // DEFERRED
    assert Placed(106) by { Here(106); EntryIsPlaced(106, 0, 8, 463, 470, 'D', 'D', 100, 100, 8, 53); }
  }

  lemma Keywords107()
    ensures Placed(107) && Placed(108)
  {
    hide Bucket, Lower, Width, Placed, Reaches;
    Letters0(); Letters1(); Letters2(); Widths(); Buckets3();
    // DISTINCT
    assert Placed(107) by {
      Here(107); Past(109, 107, 108, 4, 8);
      EntryIsPlaced(107, 8, 8, 470, 477, 'D', 'T', 100, 116, 8, 69);
    }
    // IS
    assert Placed(108) by { Here(108); EntryIsPlaced(108, 0, 2, 471, 472, 'I', 'S', 105, 115, 2, 1); }
  }

  lemma Keywords109()
    ensures Placed(109) && Placed(110)
  {
    hide Bucket, Lower, Width, Placed, Reaches;
    Letters0(); Letters1(); Letters2(); Widths(); Buckets3();
    // DROP
    assert Placed(109) by { Here(109); EntryIsPlaced(109, 108, 4, 478, 481, 'D', 'P', 100, 112, 4, 69); }
    // PRECEDING
    assert Placed(110) by { Here(110); EntryIsPlaced(110, 0, 9, 481, 489, 'P', 'G', 112, 103, 9, 125); }
  }

  lemma Keywords111()
    ensures Placed(111) && Placed(112)
  {
    hide Bucket, Lower, Width, Placed, Reaches;
    Letters0(); Letters1(); Letters2(); Widths(); Buckets3();
    // FAIL
    assert Placed(111) by {
      Here(111); PastAt(116, 111, 112, 1, 4, 519, 490, 520, 491);
      EntryIsPlaced(111, 101, 4, 490, 493, 'F', 'L', 102, 108, 4, 89);
    }
    // FILTER
    assert Placed(112) by { Here(112); EntryIsPlaced(112, 28, 6, 494, 499, 'F', 'R', 102, 114, 6, 73); }
  }

  lemma Keywords113()
    ensures Placed(113) && Placed(114) && Placed(115)
  {
    hide Bucket, Lower, Width, Placed, Reaches;
    Letters0(); Letters1(); Letters2(); Widths(); Buckets3();
    // REPLACE
    assert Placed(113) by { Here(113); EntryIsPlaced(113, 52, 7, 499, 505, 'R', 'E', 114, 101, 7, 97); }
    // FOLLOWING
    assert Placed(114) by { Here(114); EntryIsPlaced(114, 68, 9, 506, 514, 'F', 'G', 102, 103, 9, 37); }
    // FROM
    assert Placed(115) by { Here(115); EntryIsPlaced(115, 0, 4, 515, 518, 'F', 'M', 102, 109, 4, 92); }
  }

  lemma Keywords116()
    ensures Placed(116) && Placed(117) && Placed(118)
  {
    hide Bucket, Lower, Width, Placed, Reaches;
    Letters0(); Letters1(); Letters2(); Widths(); Buckets3();
    // FULL
    assert Placed(116) by { Here(116); EntryIsPlaced(116, 112, 4, 519, 522, 'F', 'L', 102, 108, 4, 89); }
    // IF
    assert Placed(117) by { Here(117); EntryIsPlaced(117, 0, 2, 523, 524, 'I', 'F', 105, 102, 2, 21); }
    // ISNULL
    assert Placed(118) by { Here(118); EntryIsPlaced(118, 73, 6, 525, 530, 'I', 'L', 105, 108, 6, 103); }
  }

  lemma Keywords119()
    ensures Placed(119) && Placed(120) && Placed(121)
  {
    hide Bucket, Lower, Width, Placed, Reaches;
    Letters0(); Letters1(); Letters2(); Widths(); Buckets3();
    // ORDER
    assert Placed(119) by { Here(119); EntryIsPlaced(119, 51, 5, 531, 535, 'O', 'R', 111, 114, 5, 112); }
    // RESTRICT
    assert Placed(120) by { Here(120); EntryIsPlaced(120, 0, 8, 535, 542, 'R', 'T', 114, 116, 8, 29); }
    // OVER
    assert Placed(121) by { Here(121); EntryIsPlaced(121, 90, 4, 543, 546, 'O', 'R', 111, 114, 4, 111); }
  }

  lemma Keywords122()
    ensures Placed(122) && Placed(123) && Placed(124)
  {
    hide Bucket, Lower, Width, Placed, Reaches;
    Letters0(); Letters1(); Letters2(); Widths(); Buckets3();
    // RIGHT
    assert Placed(122) by { Here(122); EntryIsPlaced(122, 27, 5, 546, 550, 'R', 'T', 114, 116, 5, 18); }
    // ROLLBACK
    assert Placed(123) by { Here(123); EntryIsPlaced(123, 37, 8, 551, 558, 'R', 'K', 114, 107, 8, 2); }
    // ROWS
    assert Placed(124) by { Here(124); EntryIsPlaced(124, 0, 4, 559, 562, 'R', 'S', 114, 115, 4, 22); }
  }

  lemma Keywords125()
    ensures Placed(125) && Placed(126) && Placed(127)
  {
    hide Bucket, Lower, Width, Placed, Reaches;
    Letters0(); Letters1(); Letters2(); Widths(); Buckets3();
    // ROW
    assert Placed(125) by { Here(125); EntryIsPlaced(125, 71, 3, 559, 561, 'R', 'W', 114, 119, 3, 47); }
    // UNBOUNDED
    assert Placed(126) by { Here(126); EntryIsPlaced(126, 36, 9, 563, 571, 'U', 'D', 117, 100, 9, 114); }
    // UNION
    assert Placed(127) by { Here(127); EntryIsPlaced(127, 82, 5, 572, 576, 'U', 'N', 117, 110, 5, 28); }
  }

  lemma Keywords128()
    ensures Placed(128) && Placed(129) && Placed(130)
  {
    hide Bucket, Lower, Width, Placed, Reaches;
    Letters0(); Letters1(); Letters2(); Widths(); Buckets3();
    // USING
    assert Placed(128) by { Here(128); EntryIsPlaced(128, 0, 5, 577, 581, 'U', 'G', 117, 103, 5, 101); }
    // VACUUM
    assert Placed(129) by { Here(129); EntryIsPlaced(129, 35, 6, 582, 587, 'V', 'M', 118, 109, 6, 26); }
    // VIEW
    assert Placed(130) by { Here(130); EntryIsPlaced(130, 66, 4, 588, 591, 'V', 'W', 118, 119, 4, 58); }
  }

  lemma Keywords131()
    ensures Placed(131) && Placed(132) && Placed(133)
  {
    hide Bucket, Lower, Width, Placed, Reaches;
    Letters0(); Letters1(); Letters2(); Widths(); Buckets3();
    // WINDOW
    assert Placed(131) by { Here(131); EntryIsPlaced(131, 25, 6, 591, 596, 'W', 'W', 119, 119, 6, 64); }
    // DO
    assert Placed(132) by { Here(132); EntryIsPlaced(132, 18, 2, 594, 595, 'D', 'O', 100, 111, 2, 96); }
    // INITIALLY
    assert Placed(133) by { Here(133); EntryIsPlaced(133, 0, 9, 597, 605, 'I', 'Y', 105, 121, 9, 71); }
  }

  lemma Keywords134()
    ensures Placed(134) && Placed(135)
  {
    hide Bucket, Lower, Width, Placed, Reaches;
    Letters0(); Letters1(); Letters2(); Widths(); Buckets3();
    // ALL
    assert Placed(134) by { Here(134); EntryIsPlaced(134, 0, 3, 602, 604, 'A', 'L', 97, 108, 3, 68); }
    // PRIMARY
    assert Placed(135) by { Here(135); EntryIsPlaced(135, 78, 7, 606, 612, 'P', 'Y', 112, 121, 7, 45); }
  }

  /** Every keyword lies within the text, starts and ends with a letter, and is found in its bucket. */
  lemma EveryKeyword(k: nat)
    requires k < KEYWORDS
    ensures Placed(k)
  {
    hide Placed;
    match k
    case 0 => Keywords0();
    case 1 => Keywords1();
    case 2 => Keywords2();
    case 3 | 4 => Keywords3();
    case 5 => Keywords5();
    case 6 => Keywords6();
    case 7 => Keywords7();
    case 8 | 9 => Keywords8();
    case 10 | 11 => Keywords10();
    case 12 | 13 => Keywords12();
    case 14 | 15 => Keywords14();
    case 16 | 17 => Keywords16();
    case 18 | 19 => Keywords18();
    case 20 | 21 => Keywords20();
    case 22 | 23 => Keywords22();
    case 24 | 25 => Keywords24();
    case 26 => Keywords26();
    case 27 | 28 => Keywords27();
    case 29 => Keywords29();
    case 30 => Keywords30();
    case 31 => Keywords31();
    case 32 => Keywords32();
    case 33 => Keywords33();
    case 34 => Keywords34();
    case 35 => Keywords35();
    case 36 => Keywords36();
    case 37 => Keywords37();
    case 38 | 39 => Keywords38();
    case 40 => Keywords40();
    case 41 | 42 => Keywords41();
    case 43 | 44 | 45 => Keywords43();
    case 46 | 47 => Keywords46();
    case 48 => Keywords48();
    case 49 => Keywords49();
    case 50 => Keywords50();
    case 51 | 52 => Keywords51();
    case 53 | 54 | 55 => Keywords53();
    case 56 | 57 => Keywords56();
    case 58 | 59 | 60 => Keywords58();
    case 61 | 62 => Keywords61();
    case 63 => Keywords63();
    case 64 => Keywords64();
    case 65 | 66 => Keywords65();
    case 67 => Keywords67();
    case 68 | 69 => Keywords68();
    case 70 | 71 => Keywords70();
    case 72 | 73 => Keywords72();
    case 74 => Keywords74();
    case 75 | 76 => Keywords75();
    case 77 | 78 => Keywords77();
    case 79 | 80 => Keywords79();
    case 81 | 82 => Keywords81();
    case 83 | 84 | 85 => Keywords83();
    case 86 | 87 | 88 => Keywords86();
    case 89 => Keywords89();
    case 90 | 91 => Keywords90();
    case 92 | 93 | 94 => Keywords92();
    case 95 | 96 | 97 => Keywords95();
    case 98 | 99 => Keywords98();
    case 100 => Keywords100();
    case 101 => Keywords101();
    case 102 | 103 | 104 => Keywords102();
    case 105 | 106 => Keywords105();
    case 107 | 108 => Keywords107();
    case 109 | 110 => Keywords109();
    case 111 | 112 => Keywords111();
    case 113 | 114 | 115 => Keywords113();
    case 116 | 117 | 118 => Keywords116();
    case 119 | 120 | 121 => Keywords119();
    case 122 | 123 | 124 => Keywords122();
    case 125 | 126 | 127 => Keywords125();
    case 128 | 129 | 130 => Keywords128();
    case 131 | 132 | 133 => Keywords131();
    case _ => Keywords134();
  }
}
