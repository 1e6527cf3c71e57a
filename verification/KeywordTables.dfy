/**
  The tables of keywordhash.h as they stand there, and what has to be true of every entry: its text lies
  within the overlapped text, and the collision chain of its hash value leads to it without passing another
  entry with the same text.
 */
module KeywordTables {

  const TEXT_LENGTH: nat := 613
  const BUCKETS: nat := 127
  const KEYWORDS: nat := 136
  const TK_ID: nat := 59

  /** Capital letters and the underscore. */
  predicate KeywordChar(c: char) { Upper(c) || c == '_' }

  predicate Upper(c: char) { 'A' <= c <= 'Z' }

  /** The j-th of 18 characters, as they stand in one row of the text. */
  function PickChar(j: nat, a: char, b: char, c: char, d: char, e: char, f: char, g: char, h: char, i: char,
                    k: char, l: char, m: char, n: char, o: char, p: char, q: char, r: char, s: char): char
  {
    if j == 0 then a else if j == 1 then b else if j == 2 then c else if j == 3 then d else if j == 4 then e
    else if j == 5 then f else if j == 6 then g else if j == 7 then h else if j == 8 then i else if j == 9 then k
    else if j == 10 then l else if j == 11 then m else if j == 12 then n else if j == 13 then o else if j == 14 then p
    else if j == 15 then q else if j == 16 then r else s
  }

  /** The characters of `zKWText`, 18 in a row as they stand there; the last row has one. */
  function TextRow(r: nat, j: nat): char {
    match r
    case 0 => PickChar(j, 'R', 'E', 'I', 'N', 'D', 'E', 'X', 'E', 'D', 'E', 'S', 'C', 'A', 'P', 'E', 'A', 'C', 'H')
    case 1 => PickChar(j, 'E', 'C', 'K', 'E', 'Y', 'B', 'E', 'F', 'O', 'R', 'E', 'I', 'G', 'N', 'O', 'R', 'E', 'G')
    case 2 => PickChar(j, 'E', 'X', 'P', 'L', 'A', 'I', 'N', 'S', 'T', 'E', 'A', 'D', 'D', 'A', 'T', 'A', 'B', 'A')
    case 3 => PickChar(j, 'S', 'E', 'L', 'E', 'C', 'T', 'A', 'B', 'L', 'E', 'F', 'T', 'H', 'E', 'N', 'D', 'E', 'F')
    case 4 => PickChar(j, 'E', 'R', 'R', 'A', 'B', 'L', 'E', 'L', 'S', 'E', 'X', 'C', 'E', 'P', 'T', 'R', 'A', 'N')
    case 5 => PickChar(j, 'S', 'A', 'C', 'T', 'I', 'O', 'N', 'A', 'T', 'U', 'R', 'A', 'L', 'T', 'E', 'R', 'A', 'I')
    case 6 => PickChar(j, 'S', 'E', 'X', 'C', 'L', 'U', 'S', 'I', 'V', 'E', 'X', 'I', 'S', 'T', 'S', 'A', 'V', 'E')
    case 7 => PickChar(j, 'P', 'O', 'I', 'N', 'T', 'E', 'R', 'S', 'E', 'C', 'T', 'R', 'I', 'G', 'G', 'E', 'R', 'E')
    case 8 => PickChar(j, 'F', 'E', 'R', 'E', 'N', 'C', 'E', 'S', 'C', 'O', 'N', 'S', 'T', 'R', 'A', 'I', 'N', 'T')
    case 9 => PickChar(j, 'O', 'F', 'F', 'S', 'E', 'T', 'E', 'M', 'P', 'O', 'R', 'A', 'R', 'Y', 'U', 'N', 'I', 'Q')
    case 10 => PickChar(j, 'U', 'E', 'R', 'Y', 'W', 'I', 'T', 'H', 'O', 'U', 'T', 'E', 'R', 'E', 'L', 'E', 'A', 'S')
    case 11 => PickChar(j, 'E', 'A', 'T', 'T', 'A', 'C', 'H', 'A', 'V', 'I', 'N', 'G', 'R', 'O', 'U', 'P', 'D', 'A')
    case 12 => PickChar(j, 'T', 'E', 'B', 'E', 'G', 'I', 'N', 'N', 'E', 'R', 'A', 'N', 'G', 'E', 'B', 'E', 'T', 'W')
    case 13 => PickChar(j, 'E', 'E', 'N', 'O', 'T', 'H', 'I', 'N', 'G', 'L', 'O', 'B', 'Y', 'C', 'A', 'S', 'C', 'A')
    case 14 => PickChar(j, 'D', 'E', 'L', 'E', 'T', 'E', 'C', 'A', 'S', 'E', 'C', 'O', 'L', 'L', 'A', 'T', 'E', 'C')
    case 15 => PickChar(j, 'R', 'E', 'A', 'T', 'E', 'C', 'U', 'R', 'R', 'E', 'N', 'T', '_', 'D', 'A', 'T', 'E', 'D')
    case 16 => PickChar(j, 'E', 'T', 'A', 'C', 'H', 'I', 'M', 'M', 'E', 'D', 'I', 'A', 'T', 'E', 'J', 'O', 'I', 'N')
    case 17 => PickChar(j, 'S', 'E', 'R', 'T', 'L', 'I', 'K', 'E', 'M', 'A', 'T', 'C', 'H', 'P', 'L', 'A', 'N', 'A')
    case 18 => PickChar(j, 'L', 'Y', 'Z', 'E', 'P', 'R', 'A', 'G', 'M', 'A', 'B', 'O', 'R', 'T', 'V', 'A', 'L', 'U')
    case 19 => PickChar(j, 'E', 'S', 'V', 'I', 'R', 'T', 'U', 'A', 'L', 'I', 'M', 'I', 'T', 'W', 'H', 'E', 'N', 'O')
    case 20 => PickChar(j, 'T', 'N', 'U', 'L', 'L', 'W', 'H', 'E', 'R', 'E', 'C', 'U', 'R', 'S', 'I', 'V', 'E', 'A')
    case 21 => PickChar(j, 'F', 'T', 'E', 'R', 'E', 'N', 'A', 'M', 'E', 'A', 'N', 'D', 'E', 'F', 'A', 'U', 'L', 'T')
    case 22 => PickChar(j, 'A', 'U', 'T', 'O', 'I', 'N', 'C', 'R', 'E', 'M', 'E', 'N', 'T', 'C', 'A', 'S', 'T', 'C')
    case 23 => PickChar(j, 'O', 'L', 'U', 'M', 'N', 'C', 'O', 'M', 'M', 'I', 'T', 'C', 'O', 'N', 'F', 'L', 'I', 'C')
    case 24 => PickChar(j, 'T', 'C', 'R', 'O', 'S', 'S', 'C', 'U', 'R', 'R', 'E', 'N', 'T', '_', 'T', 'I', 'M', 'E')
    case 25 => PickChar(j, 'S', 'T', 'A', 'M', 'P', 'A', 'R', 'T', 'I', 'T', 'I', 'O', 'N', 'D', 'E', 'F', 'E', 'R')
    case 26 => PickChar(j, 'R', 'E', 'D', 'I', 'S', 'T', 'I', 'N', 'C', 'T', 'D', 'R', 'O', 'P', 'R', 'E', 'C', 'E')
    case 27 => PickChar(j, 'D', 'I', 'N', 'G', 'F', 'A', 'I', 'L', 'F', 'I', 'L', 'T', 'E', 'R', 'E', 'P', 'L', 'A')
    case 28 => PickChar(j, 'C', 'E', 'F', 'O', 'L', 'L', 'O', 'W', 'I', 'N', 'G', 'F', 'R', 'O', 'M', 'F', 'U', 'L')
    case 29 => PickChar(j, 'L', 'I', 'F', 'I', 'S', 'N', 'U', 'L', 'L', 'O', 'R', 'D', 'E', 'R', 'E', 'S', 'T', 'R')
    case 30 => PickChar(j, 'I', 'C', 'T', 'O', 'V', 'E', 'R', 'I', 'G', 'H', 'T', 'R', 'O', 'L', 'L', 'B', 'A', 'C')
    case 31 => PickChar(j, 'K', 'R', 'O', 'W', 'S', 'U', 'N', 'B', 'O', 'U', 'N', 'D', 'E', 'D', 'U', 'N', 'I', 'O')
    case 32 => PickChar(j, 'N', 'U', 'S', 'I', 'N', 'G', 'V', 'A', 'C', 'U', 'U', 'M', 'V', 'I', 'E', 'W', 'I', 'N')
    case 33 => PickChar(j, 'D', 'O', 'W', 'I', 'N', 'I', 'T', 'I', 'A', 'L', 'L', 'Y', 'P', 'R', 'I', 'M', 'A', 'R')
    case _ => PickChar(j, 'Y', '_', '_', '_', '_', '_', '_', '_', '_', '_', '_', '_', '_', '_', '_', '_', '_', '_')
  }

  /** The overlapped text, `zKWText`. */
  function KWText(i: nat): (c: char)
    requires i < TEXT_LENGTH
  {
    TextRow(i / 18, i % 18)
  }

  /** The j-th of 13 values, as they stand in one row of a table. */
  function Pick(j: nat, a: nat, b: nat, c: nat, d: nat, e: nat, f: nat, g: nat, h: nat, i: nat, k: nat, l: nat, m: nat, n: nat): nat {
    if j == 0 then a else if j == 1 then b else if j == 2 then c else if j == 3 then d else if j == 4 then e
    else if j == 5 then f else if j == 6 then g else if j == 7 then h else if j == 8 then i else if j == 9 then k
    else if j == 10 then l else if j == 11 then m else n
  }

  /** `aKWHash`: one more than the first keyword of a bucket, or 0. */
  function KWHash(i: nat): (r: nat)
    requires i < 127
    ensures r <= KEYWORDS
  {
    match i / 13
    case 0 => Pick(i % 13, 74, 109, 124, 72, 106, 45, 0, 0, 81, 0, 76, 61, 0)
    case 1 => Pick(i % 13, 42, 12, 77, 15, 0, 123, 84, 54, 118, 125, 19, 0, 0)
    case 2 => Pick(i % 13, 130, 0, 128, 121, 0, 22, 96, 0, 9, 0, 0, 115, 69)
    case 3 => Pick(i % 13, 0, 67, 6, 0, 48, 93, 136, 0, 126, 104, 0, 0, 44)
    case 4 => Pick(i % 13, 0, 107, 24, 0, 17, 0, 131, 53, 23, 0, 5, 62, 132)
    case 5 => Pick(i % 13, 99, 0, 0, 135, 110, 60, 134, 57, 113, 55, 0, 94, 0)
    case 6 => Pick(i % 13, 103, 26, 0, 102, 0, 0, 0, 98, 95, 100, 105, 117, 14)
    case 7 => Pick(i % 13, 39, 116, 0, 80, 0, 133, 114, 92, 59, 0, 129, 79, 119)
    case 8 => Pick(i % 13, 86, 46, 83, 0, 0, 97, 40, 122, 120, 0, 127, 0, 0)
    case _ => Pick(i % 13, 29, 0, 89, 87, 88, 0, 20, 85, 111, 56, 0, 0, 0)
  }

  /** `aKWNext`: one more than the next keyword of the bucket, or 0.  It always comes earlier. */
  function KWNext(i: nat): (r: nat)
    requires i < 136
    ensures r <= i
  {
    match i / 13
    case 0 => Pick(i % 13, 0, 0, 0, 0, 4, 0, 0, 0, 0, 0, 0, 0, 0)
    case 1 => Pick(i % 13, 0, 2, 0, 0, 0, 0, 0, 0, 13, 0, 0, 0, 0)
    case 2 => Pick(i % 13, 0, 7, 0, 0, 0, 0, 0, 0, 0, 0, 0, 0, 0)
    case 3 => Pick(i % 13, 0, 0, 0, 0, 33, 0, 21, 0, 0, 0, 0, 0, 50)
    case 4 => Pick(i % 13, 0, 43, 3, 47, 0, 0, 32, 0, 0, 0, 0, 0, 0)
    case 5 => Pick(i % 13, 0, 1, 64, 0, 0, 65, 0, 41, 0, 38, 0, 0, 0)
    case 6 => Pick(i % 13, 0, 0, 49, 75, 0, 0, 30, 0, 58, 0, 0, 0, 31)
    case 7 => Pick(i % 13, 63, 16, 34, 10, 0, 0, 0, 0, 0, 0, 0, 11, 70)
    case 8 => Pick(i % 13, 91, 0, 0, 8, 0, 108, 0, 101, 28, 52, 68, 0, 112)
    case 9 => Pick(i % 13, 0, 73, 51, 0, 90, 27, 37, 0, 71, 36, 82, 0, 35)
    case _ => Pick(i % 13, 66, 25, 18, 0, 0, 78, 0, 0, 0, 0, 0, 0, 0)
  }

  /** `aKWLen` */
  function KWLen(i: nat): (r: nat)
    requires i < 136
  {
    match i / 13
    case 0 => Pick(i % 13, 7, 7, 5, 4, 6, 4, 5, 3, 6, 7, 3, 6, 6)
    case 1 => Pick(i % 13, 7, 7, 3, 8, 2, 6, 5, 4, 4, 3, 10, 4, 6)
    case 2 => Pick(i % 13, 11, 6, 2, 7, 5, 5, 9, 6, 9, 9, 7, 10, 10)
    case 3 => Pick(i % 13, 4, 6, 2, 3, 9, 4, 2, 6, 5, 7, 4, 5, 7)
    case 4 => Pick(i % 13, 6, 6, 5, 6, 5, 5, 5, 7, 7, 4, 2, 7, 3)
    case 5 => Pick(i % 13, 6, 4, 7, 6, 12, 6, 9, 4, 6, 4, 5, 4, 7)
    case 6 => Pick(i % 13, 6, 5, 6, 7, 5, 4, 7, 3, 2, 4, 5, 9, 5)
    case 7 => Pick(i % 13, 6, 3, 7, 13, 2, 2, 4, 6, 6, 8, 5, 17, 12)
    case 8 => Pick(i % 13, 7, 9, 8, 8, 2, 4, 9, 4, 6, 7, 9, 4, 4)
    case 9 => Pick(i % 13, 2, 6, 5, 8, 4, 5, 8, 4, 3, 9, 5, 5, 6)
    case _ => Pick(i % 13, 4, 6, 2, 9, 3, 7, 0, 0, 0, 0, 0, 0, 0)
  }

  /** `aKWOffset` */
  function KWOffset(i: nat): (r: nat)
    requires i < 136
  {
    match i / 13
    case 0 => Pick(i % 13, 0, 2, 2, 8, 9, 14, 16, 20, 23, 25, 25, 29, 33)
    case 1 => Pick(i % 13, 36, 41, 46, 48, 53, 54, 59, 62, 65, 67, 69, 78, 81)
    case 2 => Pick(i % 13, 86, 91, 95, 96, 101, 105, 109, 117, 122, 128, 136, 142, 152)
    case 3 => Pick(i % 13, 159, 162, 162, 165, 167, 167, 171, 176, 179, 184, 184, 188, 192)
    case 4 => Pick(i % 13, 199, 204, 209, 212, 218, 221, 225, 230, 236, 242, 245, 247, 248)
    case 5 => Pick(i % 13, 252, 258, 262, 269, 275, 287, 293, 302, 304, 310, 314, 319, 321)
    case 6 => Pick(i % 13, 328, 333, 338, 344, 350, 355, 358, 358, 358, 361, 365, 368, 377)
    case 7 => Pick(i % 13, 381, 387, 389, 396, 398, 400, 409, 413, 419, 425, 433, 438, 438)
    case 8 => Pick(i % 13, 438, 454, 463, 470, 471, 478, 481, 490, 494, 499, 506, 515, 519)
    case 9 => Pick(i % 13, 523, 525, 531, 535, 543, 546, 551, 559, 559, 563, 572, 577, 582)
    case _ => Pick(i % 13, 588, 591, 594, 597, 602, 606, 0, 0, 0, 0, 0, 0, 0)
  }

  /** `aKWCode`, with the values that parse.h gives to the TK_ symbols. */
  function KWCode(i: nat): (r: nat)
    requires i < 136
    ensures r != TK_ID
  {
    match i / 13
    case 0 => Pick(i % 13, 88, 105, 149, 39, 58, 41, 113, 67, 33, 121, 62, 63, 47)
    case 1 => Pick(i % 13, 2, 65, 151, 38, 24, 127, 16, 107, 147, 11, 120, 148, 125)
    case 2 => Pick(i % 13, 6, 28, 104, 107, 150, 71, 9, 20, 13, 126, 77, 114, 108)
    case 3 => Pick(i % 13, 139, 69, 68, 119, 21, 21, 43, 112, 3, 25, 81, 107, 14)
    case 4 => Pick(i % 13, 32, 136, 135, 118, 5, 107, 86, 48, 140, 47, 34, 35, 31)
    case 5 => Pick(i % 13, 117, 145, 102, 17, 90, 40, 8, 132, 116, 47, 46, 4, 30)
    case 6 => Pick(i % 13, 70, 27, 128, 80, 137, 146, 51, 19, 66, 110, 138, 72, 29)
    case 7 => Pick(i % 13, 89, 44, 109, 115, 15, 49, 36, 60, 10, 37, 107, 90, 90)
    case 8 => Pick(i % 13, 82, 84, 7, 129, 45, 122, 85, 42, 154, 73, 83, 131, 107)
    case 9 => Pick(i % 13, 18, 50, 134, 74, 153, 107, 12, 76, 75, 87, 123, 133, 78)
    case _ => Pick(i % 13, 79, 152, 61, 64, 124, 111, 0, 0, 0, 0, 0, 0, 0)
  }

  // ---------------------------------------------------------------------------------------------
  // Hashing

  /** The arithmetic is that of C's 32-bit `int`; none of the values is negative there. */
  function Mix(first: bv32, last: bv32, length: bv32): nat {
    ((first * 4) ^ (last * 3) ^ length) as nat
  }

  function Bucket(first: bv32, last: bv32, length: bv32): (h: nat)
    ensures h < BUCKETS
  {
    Mix(first, last, length) % 127
  }

  /** A length as a C `int`. */
  function Width(n: nat): bv32
    requires n < 0x8000_0000
  {
    n as bv32
  }

  /** The lower-case form of a capital letter. */
  function Lower(c: char): bv32 {
    match c
    case 'A' => 97 case 'B' => 98 case 'C' => 99 case 'D' => 100 case 'E' => 101 case 'F' => 102 case 'G' => 103
    case 'H' => 104 case 'I' => 105 case 'J' => 106 case 'K' => 107 case 'L' => 108 case 'M' => 109 case 'N' => 110
    case 'O' => 111 case 'P' => 112 case 'Q' => 113 case 'R' => 114 case 'S' => 115 case 'T' => 116 case 'U' => 117
    case 'V' => 118 case 'W' => 119 case 'X' => 120 case 'Y' => 121 case _ => 122
  }

  // ---------------------------------------------------------------------------------------------
  // What is true of every keyword

  predicate Fits(k: nat)
    requires k < KEYWORDS
  {
    KWLen(k) >= 2 && KWOffset(k) + KWLen(k) <= TEXT_LENGTH
  }

  function FirstChar(k: nat): char
    requires k < KEYWORDS && Fits(k)
  {
    KWText(KWOffset(k))
  }

  function LastChar(k: nat): char
    requires k < KEYWORDS && Fits(k)
  {
    KWText(KWOffset(k) + KWLen(k) - 1)
  }

  predicate DifferAt(i: nat, k: nat, p: nat)
    requires i < KEYWORDS && k < KEYWORDS
  {
    Fits(i) && Fits(k) && p < KWLen(i) && p < KWLen(k) && KWText(KWOffset(i) + p) != KWText(KWOffset(k) + p)
  }

  ghost predicate Different(i: nat, k: nat)
    requires i < KEYWORDS && k < KEYWORDS
  {
    KWLen(i) != KWLen(k) || exists p :: DifferAt(i, k, p)
  }

  /** A chain leads to a keyword without passing another one with the same text. */
  ghost predicate Reaches(next: nat, k: nat)
    requires next <= KEYWORDS && k < KEYWORDS
    decreases next
  {
    next > 0 && (next - 1 == k || (Different(next - 1, k) && Reaches(KWNext(next - 1), k)))
  }

  ghost predicate Placed(k: nat)
    requires k < KEYWORDS
  {
    && Fits(k) && Upper(FirstChar(k)) && Upper(LastChar(k)) && KWLen(k) < 100
    && Reaches(KWHash(Bucket(Lower(FirstChar(k)), Lower(LastChar(k)), Width(KWLen(k)))), k)
  }

  lemma EveryChar(i: nat)
    requires i < TEXT_LENGTH
    ensures KeywordChar(KWText(i))
  {
    hide TextRow;
    if i / 18 < 18 { EveryCharBelow(i / 18, i % 18); } else { EveryCharAbove(i / 18, i % 18); }
  }

  lemma EveryCharBelow(r: nat, j: nat)
    requires r < 18 && j < 18
    ensures KeywordChar(TextRow(r, j))
  {
  }

  lemma EveryCharAbove(r: nat, j: nat)
    requires 18 <= r < 35 && j < 18
    ensures KeywordChar(TextRow(r, j))
  {
  }
}
