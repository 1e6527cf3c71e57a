/**
  What the keywords of keywordhash.h are called and what they mean: the code of a keyword is that of the token
  with its name in the token list of parse.c, but for a few families of words that share a token.
 */
module KeywordNames {
  import opened Wrappers
  import opened KeywordTables
  import opened KeywordHash

  function PickName(j: nat, a: string, b: string, c: string, d: string, e: string,
                    f: string, g: string, h: string, i: string, k: string): string
  {
    if j == 0 then a else if j == 1 then b else if j == 2 then c else if j == 3 then d else if j == 4 then e
    else if j == 5 then f else if j == 6 then g else if j == 7 then h else if j == 8 then i else k
  }

  /** The names of the tokens in `yyTokenName`, ten in a row. */
  function NameRow(r: nat, j: nat): string {
    match r
    case 0 => PickName(j, "$", "SEMI", "EXPLAIN", "QUERY", "PLAN", "BEGIN", "TRANSACTION", "DEFERRED", "IMMEDIATE", "EXCLUSIVE")
    case 1 => PickName(j, "COMMIT", "END", "ROLLBACK", "SAVEPOINT", "RELEASE", "TO", "TABLE", "CREATE", "IF", "NOT")
    case 2 => PickName(j, "EXISTS", "TEMP", "LP", "RP", "AS", "WITHOUT", "COMMA", "ABORT", "ACTION", "AFTER")
    case 3 => PickName(j, "ANALYZE", "ASC", "ATTACH", "BEFORE", "BY", "CASCADE", "CAST", "CONFLICT", "DATABASE", "DESC")
    case 4 => PickName(j, "DETACH", "EACH", "FAIL", "OR", "AND", "IS", "MATCH", "LIKE_KW", "BETWEEN", "IN")
    case 5 => PickName(j, "ISNULL", "NOTNULL", "NE", "EQ", "GT", "LE", "LT", "GE", "ESCAPE", "ID")
    case 6 => PickName(j, "COLUMNKW", "DO", "FOR", "IGNORE", "INITIALLY", "INSTEAD", "NO", "KEY", "OF", "OFFSET")
    case 7 => PickName(j, "PRAGMA", "RAISE", "RECURSIVE", "REPLACE", "RESTRICT", "ROW", "ROWS", "TRIGGER", "VACUUM", "VIEW")
    case 8 => PickName(j, "VIRTUAL", "WITH", "CURRENT", "FOLLOWING", "PARTITION", "PRECEDING", "RANGE", "UNBOUNDED", "REINDEX", "RENAME")
    case 9 => PickName(j, "CTIME_KW", "ANY", "BITAND", "BITOR", "LSHIFT", "RSHIFT", "PLUS", "MINUS", "STAR", "SLASH")
    case 10 => PickName(j, "REM", "CONCAT", "COLLATE", "BITNOT", "ON", "INDEXED", "STRING", "JOIN_KW", "CONSTRAINT", "DEFAULT")
    case 11 => PickName(j, "NULL", "PRIMARY", "UNIQUE", "CHECK", "REFERENCES", "AUTOINCR", "INSERT", "DELETE", "UPDATE", "SET")
    case 12 => PickName(j, "DEFERRABLE", "FOREIGN", "DROP", "UNION", "ALL", "EXCEPT", "INTERSECT", "SELECT", "VALUES", "DISTINCT")
    case 13 => PickName(j, "DOT", "FROM", "JOIN", "USING", "ORDER", "GROUP", "HAVING", "LIMIT", "WHERE", "INTO")
    case 14 => PickName(j, "NOTHING", "FLOAT", "BLOB", "INTEGER", "VARIABLE", "CASE", "WHEN", "THEN", "ELSE", "INDEX")
    case _ => PickName(j, "ALTER", "ADD", "WINDOW", "OVER", "FILTER", "", "", "", "", "")
  }

  function TokenName(t: nat): string
    requires t < 155
  {
    NameRow(t / 10, t % 10)
  }

  /** What is no keyword is an identifier. */
  lemma IdentifierToken()
    ensures TokenName(TK_ID) == "ID"
  {
  }

  /** The words that stand for a token with another name. */
  predicate Alias(code: nat, word: string) {
    || (code == 21 && word == "TEMPORARY")
    || (code == 47 && (word == "LIKE" || word == "GLOB" || word == "REGEXP"))
    || (code == 60 && word == "COLUMN")
    || (code == 90 && (word == "CURRENT_DATE" || word == "CURRENT_TIME" || word == "CURRENT_TIMESTAMP"))
    || (code == 107 && (word == "NATURAL" || word == "LEFT" || word == "RIGHT" || word == "FULL"
                        || word == "OUTER" || word == "INNER" || word == "CROSS"))
    || (code == 115 && word == "AUTOINCREMENT")
  }

  /** Keyword k is this word and stands for this token, which has its name. */
  predicate Is(k: nat, word: string, code: nat)
    requires k < KEYWORDS && code < 155
  {
    Text(k) == word && KWCode(k) == code && (word == TokenName(code) || Alias(code, word))
  }

  /** A keyword's text reads `a` from place j of row r on, and then `b` from the start of the next row. */
  lemma Spelled(k: nat, r: nat, j: nat, a: string, b: string)
    requires k < KEYWORDS && r < 34 && KWOffset(k) == 18 * r + j && KWLen(k) == |a| + |b|
    requires j + |a| <= 18 && (b == [] || (j + |a| == 18 && |b| < 18))
    requires forall i :: 0 <= i < |a| ==> TextRow(r, j + i) == a[i]
    requires forall i :: 0 <= i < |b| ==> TextRow(r + 1, i) == b[i]
    ensures Text(k) == a + b
  {
    hide TextRow, KWLen, KWOffset;
    TextFits(k);
    forall i | 0 <= i < |a| + |b| ensures KWText(KWOffset(k) + i) == (a + b)[i] {
      if i < |a| {
        assert (18 * r + j + i) / 18 == r && (18 * r + j + i) % 18 == j + i;
      } else {
        assert (18 * r + j + i) / 18 == r + 1 && (18 * r + j + i) % 18 == i - |a|;
      }
    }
  }

  lemma IsWord(k: nat, r: nat, j: nat, a: string, b: string, word: string, code: nat)
    requires k < KEYWORDS && r < 34 && KWOffset(k) == 18 * r + j && KWLen(k) == |a| + |b|
    requires j + |a| <= 18 && (b == [] || (j + |a| == 18 && |b| < 18))
    requires forall i :: 0 <= i < |a| ==> TextRow(r, j + i) == a[i]
    requires forall i :: 0 <= i < |b| ==> TextRow(r + 1, i) == b[i]
    requires a + b == word && KWCode(k) == code < 155
    requires word == NameRow(code / 10, code % 10) || Alias(code, word)
    ensures Is(k, word, code)
  {
    hide Text, TextRow, KWOffset, KWLen, KWCode, NameRow, Alias;
    Spelled(k, r, j, a, b);
  }

  lemma Words0()
    ensures Is(0, "REINDEX", 88) && Is(1, "INDEXED", 105)
    ensures Is(2, "INDEX", 149) && Is(3, "DESC", 39)
  {
    hide Text, Is, TokenName;
    assert Is(0, "REINDEX", 88) by { IsWord(0, 0, 0, "REINDEX", "", "REINDEX", 88); }
    assert Is(1, "INDEXED", 105) by { IsWord(1, 0, 2, "INDEXED", "", "INDEXED", 105); }
    assert Is(2, "INDEX", 149) by { IsWord(2, 0, 2, "INDEX", "", "INDEX", 149); }
    assert Is(3, "DESC", 39) by { IsWord(3, 0, 8, "DESC", "", "DESC", 39); }
  }

  lemma Words4()
    ensures Is(4, "ESCAPE", 58) && Is(5, "EACH", 41)
    ensures Is(6, "CHECK", 113) && Is(7, "KEY", 67)
  {
    hide Text, Is, TokenName;
    assert Is(4, "ESCAPE", 58) by { IsWord(4, 0, 9, "ESCAPE", "", "ESCAPE", 58); }
    assert Is(5, "EACH", 41) by { IsWord(5, 0, 14, "EACH", "", "EACH", 41); }
    assert Is(6, "CHECK", 113) by { IsWord(6, 0, 16, "CH", "ECK", "CHECK", 113); }
    assert Is(7, "KEY", 67) by { IsWord(7, 1, 2, "KEY", "", "KEY", 67); }
  }

  lemma Words8()
    ensures Is(8, "BEFORE", 33) && Is(9, "FOREIGN", 121)
    ensures Is(10, "FOR", 62) && Is(11, "IGNORE", 63)
  {
    hide Text, Is, TokenName;
    assert Is(8, "BEFORE", 33) by { IsWord(8, 1, 5, "BEFORE", "", "BEFORE", 33); }
    assert Is(9, "FOREIGN", 121) by { IsWord(9, 1, 7, "FOREIGN", "", "FOREIGN", 121); }
    assert Is(10, "FOR", 62) by { IsWord(10, 1, 7, "FOR", "", "FOR", 62); }
    assert Is(11, "IGNORE", 63) by { IsWord(11, 1, 11, "IGNORE", "", "IGNORE", 63); }
  }

  lemma Words12()
    ensures Is(12, "REGEXP", 47) && Is(13, "EXPLAIN", 2)
    ensures Is(14, "INSTEAD", 65) && Is(15, "ADD", 151)
  {
    hide Text, Is, TokenName;
    assert Is(12, "REGEXP", 47) by { IsWord(12, 1, 15, "REG", "EXP", "REGEXP", 47); }
    assert Is(13, "EXPLAIN", 2) by { IsWord(13, 2, 0, "EXPLAIN", "", "EXPLAIN", 2); }
    assert Is(14, "INSTEAD", 65) by { IsWord(14, 2, 5, "INSTEAD", "", "INSTEAD", 65); }
    assert Is(15, "ADD", 151) by { IsWord(15, 2, 10, "ADD", "", "ADD", 151); }
  }

  lemma Words16()
    ensures Is(16, "DATABASE", 38) && Is(17, "AS", 24)
    ensures Is(18, "SELECT", 127) && Is(19, "TABLE", 16)
  {
    hide Text, Is, TokenName;
    assert Is(16, "DATABASE", 38) by { IsWord(16, 2, 12, "DATABA", "SE", "DATABASE", 38); }
    assert Is(17, "AS", 24) by { IsWord(17, 2, 17, "A", "S", "AS", 24); }
    assert Is(18, "SELECT", 127) by { IsWord(18, 3, 0, "SELECT", "", "SELECT", 127); }
    assert Is(19, "TABLE", 16) by { IsWord(19, 3, 5, "TABLE", "", "TABLE", 16); }
  }

  lemma Words20()
    ensures Is(20, "LEFT", 107) && Is(21, "THEN", 147)
    ensures Is(22, "END", 11) && Is(23, "DEFERRABLE", 120)
  {
    hide Text, Is, TokenName;
    assert Is(20, "LEFT", 107) by { IsWord(20, 3, 8, "LEFT", "", "LEFT", 107); }
    assert Is(21, "THEN", 147) by { IsWord(21, 3, 11, "THEN", "", "THEN", 147); }
    assert Is(22, "END", 11) by { IsWord(22, 3, 13, "END", "", "END", 11); }
    assert Is(23, "DEFERRABLE", 120) by { IsWord(23, 3, 15, "DEF", "ERRABLE", "DEFERRABLE", 120); }
  }

  lemma Words24()
    ensures Is(24, "ELSE", 148) && Is(25, "EXCEPT", 125)
    ensures Is(26, "TRANSACTION", 6) && Is(27, "ACTION", 28)
  {
    hide Text, Is, TokenName;
    assert Is(24, "ELSE", 148) by { IsWord(24, 4, 6, "ELSE", "", "ELSE", 148); }
    assert Is(25, "EXCEPT", 125) by { IsWord(25, 4, 9, "EXCEPT", "", "EXCEPT", 125); }
    assert Is(26, "TRANSACTION", 6) by { IsWord(26, 4, 14, "TRAN", "SACTION", "TRANSACTION", 6); }
    assert Is(27, "ACTION", 28) by { IsWord(27, 5, 1, "ACTION", "", "ACTION", 28); }
  }

  lemma Words28()
    ensures Is(28, "ON", 104) && Is(29, "NATURAL", 107)
    ensures Is(30, "ALTER", 150) && Is(31, "RAISE", 71)
  {
    hide Text, Is, TokenName;
    assert Is(28, "ON", 104) by { IsWord(28, 5, 5, "ON", "", "ON", 104); }
    assert Is(29, "NATURAL", 107) by { IsWord(29, 5, 6, "NATURAL", "", "NATURAL", 107); }
    assert Is(30, "ALTER", 150) by { IsWord(30, 5, 11, "ALTER", "", "ALTER", 150); }
    assert Is(31, "RAISE", 71) by { IsWord(31, 5, 15, "RAI", "SE", "RAISE", 71); }
  }

  lemma Words32()
    ensures Is(32, "EXCLUSIVE", 9) && Is(33, "EXISTS", 20)
    ensures Is(34, "SAVEPOINT", 13) && Is(35, "INTERSECT", 126)
  {
    hide Text, Is, TokenName;
    assert Is(32, "EXCLUSIVE", 9) by { IsWord(32, 6, 1, "EXCLUSIVE", "", "EXCLUSIVE", 9); }
    assert Is(33, "EXISTS", 20) by { IsWord(33, 6, 9, "EXISTS", "", "EXISTS", 20); }
    assert Is(34, "SAVEPOINT", 13) by { IsWord(34, 6, 14, "SAVE", "POINT", "SAVEPOINT", 13); }
    assert Is(35, "INTERSECT", 126) by { IsWord(35, 7, 2, "INTERSECT", "", "INTERSECT", 126); }
  }

  lemma Words36()
    ensures Is(36, "TRIGGER", 77) && Is(37, "REFERENCES", 114)
    ensures Is(38, "CONSTRAINT", 108) && Is(39, "INTO", 139)
  {
    hide Text, Is, TokenName;
    assert Is(36, "TRIGGER", 77) by { IsWord(36, 7, 10, "TRIGGER", "", "TRIGGER", 77); }
    assert Is(37, "REFERENCES", 114) by { IsWord(37, 7, 16, "RE", "FERENCES", "REFERENCES", 114); }
    assert Is(38, "CONSTRAINT", 108) by { IsWord(38, 8, 8, "CONSTRAINT", "", "CONSTRAINT", 108); }
    assert Is(39, "INTO", 139) by { IsWord(39, 8, 15, "INT", "O", "INTO", 139); }
  }

  lemma Words40()
    ensures Is(40, "OFFSET", 69) && Is(41, "OF", 68)
    ensures Is(42, "SET", 119) && Is(43, "TEMPORARY", 21)
  {
    hide Text, Is, TokenName;
    assert Is(40, "OFFSET", 69) by { IsWord(40, 9, 0, "OFFSET", "", "OFFSET", 69); }
    assert Is(41, "OF", 68) by { IsWord(41, 9, 0, "OF", "", "OF", 68); }
    assert Is(42, "SET", 119) by { IsWord(42, 9, 3, "SET", "", "SET", 119); }
    assert Is(43, "TEMPORARY", 21) by { IsWord(43, 9, 5, "TEMPORARY", "", "TEMPORARY", 21); }
  }

  lemma Words44()
    ensures Is(44, "TEMP", 21) && Is(45, "OR", 43)
    ensures Is(46, "UNIQUE", 112) && Is(47, "QUERY", 3)
  {
    hide Text, Is, TokenName;
    assert Is(44, "TEMP", 21) by { IsWord(44, 9, 5, "TEMP", "", "TEMP", 21); }
    assert Is(45, "OR", 43) by { IsWord(45, 9, 9, "OR", "", "OR", 43); }
    assert Is(46, "UNIQUE", 112) by { IsWord(46, 9, 14, "UNIQ", "UE", "UNIQUE", 112); }
    assert Is(47, "QUERY", 3) by { IsWord(47, 9, 17, "Q", "UERY", "QUERY", 3); }
  }

  lemma Words48()
    ensures Is(48, "WITHOUT", 25) && Is(49, "WITH", 81)
    ensures Is(50, "OUTER", 107) && Is(51, "RELEASE", 14)
  {
    hide Text, Is, TokenName;
    assert Is(48, "WITHOUT", 25) by { IsWord(48, 10, 4, "WITHOUT", "", "WITHOUT", 25); }
    assert Is(49, "WITH", 81) by { IsWord(49, 10, 4, "WITH", "", "WITH", 81); }
    assert Is(50, "OUTER", 107) by { IsWord(50, 10, 8, "OUTER", "", "OUTER", 107); }
    assert Is(51, "RELEASE", 14) by { IsWord(51, 10, 12, "RELEAS", "E", "RELEASE", 14); }
  }

  lemma Words52()
    ensures Is(52, "ATTACH", 32) && Is(53, "HAVING", 136)
    ensures Is(54, "GROUP", 135) && Is(55, "UPDATE", 118)
  {
    hide Text, Is, TokenName;
    assert Is(52, "ATTACH", 32) by { IsWord(52, 11, 1, "ATTACH", "", "ATTACH", 32); }
    assert Is(53, "HAVING", 136) by { IsWord(53, 11, 6, "HAVING", "", "HAVING", 136); }
    assert Is(54, "GROUP", 135) by { IsWord(54, 11, 11, "GROUP", "", "GROUP", 135); }
    assert Is(55, "UPDATE", 118) by { IsWord(55, 11, 14, "UPDA", "TE", "UPDATE", 118); }
  }

  lemma Words56()
    ensures Is(56, "BEGIN", 5) && Is(57, "INNER", 107)
    ensures Is(58, "RANGE", 86) && Is(59, "BETWEEN", 48)
  {
    hide Text, Is, TokenName;
    assert Is(56, "BEGIN", 5) by { IsWord(56, 12, 2, "BEGIN", "", "BEGIN", 5); }
    assert Is(57, "INNER", 107) by { IsWord(57, 12, 5, "INNER", "", "INNER", 107); }
    assert Is(58, "RANGE", 86) by { IsWord(58, 12, 9, "RANGE", "", "RANGE", 86); }
    assert Is(59, "BETWEEN", 48) by { IsWord(59, 12, 14, "BETW", "EEN", "BETWEEN", 48); }
  }

  lemma Words60()
    ensures Is(60, "NOTHING", 140) && Is(61, "GLOB", 47)
    ensures Is(62, "BY", 34) && Is(63, "CASCADE", 35)
  {
    hide Text, Is, TokenName;
    assert Is(60, "NOTHING", 140) by { IsWord(60, 13, 2, "NOTHING", "", "NOTHING", 140); }
    assert Is(61, "GLOB", 47) by { IsWord(61, 13, 8, "GLOB", "", "GLOB", 47); }
    assert Is(62, "BY", 34) by { IsWord(62, 13, 11, "BY", "", "BY", 34); }
    assert Is(63, "CASCADE", 35) by { IsWord(63, 13, 13, "CASCA", "DE", "CASCADE", 35); }
  }

  lemma Words64()
    ensures Is(64, "ASC", 31) && Is(65, "DELETE", 117)
    ensures Is(66, "CASE", 145) && Is(67, "COLLATE", 102)
  {
    hide Text, Is, TokenName;
    assert Is(64, "ASC", 31) by { IsWord(64, 13, 14, "ASC", "", "ASC", 31); }
    assert Is(65, "DELETE", 117) by { IsWord(65, 14, 0, "DELETE", "", "DELETE", 117); }
    assert Is(66, "CASE", 145) by { IsWord(66, 14, 6, "CASE", "", "CASE", 145); }
    assert Is(67, "COLLATE", 102) by { IsWord(67, 14, 10, "COLLATE", "", "COLLATE", 102); }
  }

  lemma Words68()
    ensures Is(68, "CREATE", 17) && Is(69, "CURRENT_DATE", 90)
    ensures Is(70, "DETACH", 40) && Is(71, "IMMEDIATE", 8)
  {
    hide Text, Is, TokenName;
    assert Is(68, "CREATE", 17) by { IsWord(68, 14, 17, "C", "REATE", "CREATE", 17); }
    assert Is(69, "CURRENT_DATE", 90) by { IsWord(69, 15, 5, "CURRENT_DATE", "", "CURRENT_DATE", 90); }
    assert Is(70, "DETACH", 40) by { IsWord(70, 15, 17, "D", "ETACH", "DETACH", 40); }
    assert Is(71, "IMMEDIATE", 8) by { IsWord(71, 16, 5, "IMMEDIATE", "", "IMMEDIATE", 8); }
  }

  lemma Words72()
    ensures Is(72, "JOIN", 132) && Is(73, "INSERT", 116)
    ensures Is(74, "LIKE", 47) && Is(75, "MATCH", 46)
  {
    hide Text, Is, TokenName;
    assert Is(72, "JOIN", 132) by { IsWord(72, 16, 14, "JOIN", "", "JOIN", 132); }
    assert Is(73, "INSERT", 116) by { IsWord(73, 16, 16, "IN", "SERT", "INSERT", 116); }
    assert Is(74, "LIKE", 47) by { IsWord(74, 17, 4, "LIKE", "", "LIKE", 47); }
    assert Is(75, "MATCH", 46) by { IsWord(75, 17, 8, "MATCH", "", "MATCH", 46); }
  }

  lemma Words76()
    ensures Is(76, "PLAN", 4) && Is(77, "ANALYZE", 30)
    ensures Is(78, "PRAGMA", 70) && Is(79, "ABORT", 27)
  {
    hide Text, Is, TokenName;
    assert Is(76, "PLAN", 4) by { IsWord(76, 17, 13, "PLAN", "", "PLAN", 4); }
    assert Is(77, "ANALYZE", 30) by { IsWord(77, 17, 15, "ANA", "LYZE", "ANALYZE", 30); }
    assert Is(78, "PRAGMA", 70) by { IsWord(78, 18, 4, "PRAGMA", "", "PRAGMA", 70); }
    assert Is(79, "ABORT", 27) by { IsWord(79, 18, 9, "ABORT", "", "ABORT", 27); }
  }

  lemma Words80()
    ensures Is(80, "VALUES", 128) && Is(81, "VIRTUAL", 80)
    ensures Is(82, "LIMIT", 137) && Is(83, "WHEN", 146)
  {
    hide Text, Is, TokenName;
    assert Is(80, "VALUES", 128) by { IsWord(80, 18, 14, "VALU", "ES", "VALUES", 128); }
    assert Is(81, "VIRTUAL", 80) by { IsWord(81, 19, 2, "VIRTUAL", "", "VIRTUAL", 80); }
    assert Is(82, "LIMIT", 137) by { IsWord(82, 19, 8, "LIMIT", "", "LIMIT", 137); }
    assert Is(83, "WHEN", 146) by { IsWord(83, 19, 13, "WHEN", "", "WHEN", 146); }
  }

  lemma Words84()
    ensures Is(84, "NOTNULL", 51) && Is(85, "NOT", 19)
    ensures Is(86, "NO", 66) && Is(87, "NULL", 110)
  {
    hide Text, Is, TokenName;
    assert Is(84, "NOTNULL", 51) by { IsWord(84, 19, 16, "NO", "TNULL", "NOTNULL", 51); }
    assert Is(85, "NOT", 19) by { IsWord(85, 19, 16, "NO", "T", "NOT", 19); }
    assert Is(86, "NO", 66) by { IsWord(86, 19, 16, "NO", "", "NO", 66); }
    assert Is(87, "NULL", 110) by { IsWord(87, 20, 1, "NULL", "", "NULL", 110); }
  }

  lemma Words88()
    ensures Is(88, "WHERE", 138) && Is(89, "RECURSIVE", 72)
    ensures Is(90, "AFTER", 29) && Is(91, "RENAME", 89)
  {
    hide Text, Is, TokenName;
    assert Is(88, "WHERE", 138) by { IsWord(88, 20, 5, "WHERE", "", "WHERE", 138); }
    assert Is(89, "RECURSIVE", 72) by { IsWord(89, 20, 8, "RECURSIVE", "", "RECURSIVE", 72); }
    assert Is(90, "AFTER", 29) by { IsWord(90, 20, 17, "A", "FTER", "AFTER", 29); }
    assert Is(91, "RENAME", 89) by { IsWord(91, 21, 3, "RENAME", "", "RENAME", 89); }
  }

  lemma Words92()
    ensures Is(92, "AND", 44) && Is(93, "DEFAULT", 109)
    ensures Is(94, "AUTOINCREMENT", 115) && Is(95, "TO", 15)
  {
    hide Text, Is, TokenName;
    assert Is(92, "AND", 44) by { IsWord(92, 21, 9, "AND", "", "AND", 44); }
    assert Is(93, "DEFAULT", 109) by { IsWord(93, 21, 11, "DEFAULT", "", "DEFAULT", 109); }
    assert Is(94, "AUTOINCREMENT", 115) by { IsWord(94, 22, 0, "AUTOINCREMENT", "", "AUTOINCREMENT", 115); }
    assert Is(95, "TO", 15) by { IsWord(95, 22, 2, "TO", "", "TO", 15); }
  }

  lemma Words96()
    ensures Is(96, "IN", 49) && Is(97, "CAST", 36)
    ensures Is(98, "COLUMN", 60) && Is(99, "COMMIT", 10)
  {
    hide Text, Is, TokenName;
    assert Is(96, "IN", 49) by { IsWord(96, 22, 4, "IN", "", "IN", 49); }
    assert Is(97, "CAST", 36) by { IsWord(97, 22, 13, "CAST", "", "CAST", 36); }
    assert Is(98, "COLUMN", 60) by { IsWord(98, 22, 17, "C", "OLUMN", "COLUMN", 60); }
    assert Is(99, "COMMIT", 10) by { IsWord(99, 23, 5, "COMMIT", "", "COMMIT", 10); }
  }

  lemma Words100()
    ensures Is(100, "CONFLICT", 37) && Is(101, "CROSS", 107)
    ensures Is(102, "CURRENT_TIMESTAMP", 90) && Is(103, "CURRENT_TIME", 90)
  {
    hide Text, Is, TokenName;
    assert Is(100, "CONFLICT", 37) by { IsWord(100, 23, 11, "CONFLIC", "T", "CONFLICT", 37); }
    assert Is(101, "CROSS", 107) by { IsWord(101, 24, 1, "CROSS", "", "CROSS", 107); }
    assert Is(102, "CURRENT_TIMESTAMP", 90) by { IsWord(102, 24, 6, "CURRENT_TIME", "STAMP", "CURRENT_TIMESTAMP", 90); }
    assert Is(103, "CURRENT_TIME", 90) by { IsWord(103, 24, 6, "CURRENT_TIME", "", "CURRENT_TIME", 90); }
  }

  lemma Words104()
    ensures Is(104, "CURRENT", 82) && Is(105, "PARTITION", 84)
    ensures Is(106, "DEFERRED", 7) && Is(107, "DISTINCT", 129)
  {
    hide Text, Is, TokenName;
    assert Is(104, "CURRENT", 82) by { IsWord(104, 24, 6, "CURRENT", "", "CURRENT", 82); }
    assert Is(105, "PARTITION", 84) by { IsWord(105, 25, 4, "PARTITION", "", "PARTITION", 84); }
    assert Is(106, "DEFERRED", 7) by { IsWord(106, 25, 13, "DEFER", "RED", "DEFERRED", 7); }
    assert Is(107, "DISTINCT", 129) by { IsWord(107, 26, 2, "DISTINCT", "", "DISTINCT", 129); }
  }

  lemma Words108()
    ensures Is(108, "IS", 45) && Is(109, "DROP", 122)
    ensures Is(110, "PRECEDING", 85) && Is(111, "FAIL", 42)
  {
    hide Text, Is, TokenName;
    assert Is(108, "IS", 45) by { IsWord(108, 26, 3, "IS", "", "IS", 45); }
    assert Is(109, "DROP", 122) by { IsWord(109, 26, 10, "DROP", "", "DROP", 122); }
    assert Is(110, "PRECEDING", 85) by { IsWord(110, 26, 13, "PRECE", "DING", "PRECEDING", 85); }
    assert Is(111, "FAIL", 42) by { IsWord(111, 27, 4, "FAIL", "", "FAIL", 42); }
  }

  lemma Words112()
    ensures Is(112, "FILTER", 154) && Is(113, "REPLACE", 73)
    ensures Is(114, "FOLLOWING", 83) && Is(115, "FROM", 131)
  {
    hide Text, Is, TokenName;
    assert Is(112, "FILTER", 154) by { IsWord(112, 27, 8, "FILTER", "", "FILTER", 154); }
    assert Is(113, "REPLACE", 73) by { IsWord(113, 27, 13, "REPLA", "CE", "REPLACE", 73); }
    assert Is(114, "FOLLOWING", 83) by { IsWord(114, 28, 2, "FOLLOWING", "", "FOLLOWING", 83); }
    assert Is(115, "FROM", 131) by { IsWord(115, 28, 11, "FROM", "", "FROM", 131); }
  }

  lemma Words116()
    ensures Is(116, "FULL", 107) && Is(117, "IF", 18)
    ensures Is(118, "ISNULL", 50) && Is(119, "ORDER", 134)
  {
    hide Text, Is, TokenName;
    assert Is(116, "FULL", 107) by { IsWord(116, 28, 15, "FUL", "L", "FULL", 107); }
    assert Is(117, "IF", 18) by { IsWord(117, 29, 1, "IF", "", "IF", 18); }
    assert Is(118, "ISNULL", 50) by { IsWord(118, 29, 3, "ISNULL", "", "ISNULL", 50); }
    assert Is(119, "ORDER", 134) by { IsWord(119, 29, 9, "ORDER", "", "ORDER", 134); }
  }

  lemma Words120()
    ensures Is(120, "RESTRICT", 74) && Is(121, "OVER", 153)
    ensures Is(122, "RIGHT", 107) && Is(123, "ROLLBACK", 12)
  {
    hide Text, Is, TokenName;
    assert Is(120, "RESTRICT", 74) by { IsWord(120, 29, 13, "RESTR", "ICT", "RESTRICT", 74); }
    assert Is(121, "OVER", 153) by { IsWord(121, 30, 3, "OVER", "", "OVER", 153); }
    assert Is(122, "RIGHT", 107) by { IsWord(122, 30, 6, "RIGHT", "", "RIGHT", 107); }
    assert Is(123, "ROLLBACK", 12) by { IsWord(123, 30, 11, "ROLLBAC", "K", "ROLLBACK", 12); }
  }

  lemma Words124()
    ensures Is(124, "ROWS", 76) && Is(125, "ROW", 75)
    ensures Is(126, "UNBOUNDED", 87) && Is(127, "UNION", 123)
  {
    hide Text, Is, TokenName;
    assert Is(124, "ROWS", 76) by { IsWord(124, 31, 1, "ROWS", "", "ROWS", 76); }
    assert Is(125, "ROW", 75) by { IsWord(125, 31, 1, "ROW", "", "ROW", 75); }
    assert Is(126, "UNBOUNDED", 87) by { IsWord(126, 31, 5, "UNBOUNDED", "", "UNBOUNDED", 87); }
    assert Is(127, "UNION", 123) by { IsWord(127, 31, 14, "UNIO", "N", "UNION", 123); }
  }

  lemma Words128()
    ensures Is(128, "USING", 133) && Is(129, "VACUUM", 78)
    ensures Is(130, "VIEW", 79) && Is(131, "WINDOW", 152)
  {
    hide Text, Is, TokenName;
    assert Is(128, "USING", 133) by { IsWord(128, 32, 1, "USING", "", "USING", 133); }
    assert Is(129, "VACUUM", 78) by { IsWord(129, 32, 6, "VACUUM", "", "VACUUM", 78); }
    assert Is(130, "VIEW", 79) by { IsWord(130, 32, 12, "VIEW", "", "VIEW", 79); }
    assert Is(131, "WINDOW", 152) by { IsWord(131, 32, 15, "WIN", "DOW", "WINDOW", 152); }
  }

  lemma Words132()
    ensures Is(132, "DO", 61) && Is(133, "INITIALLY", 64)
    ensures Is(134, "ALL", 124) && Is(135, "PRIMARY", 111)
  {
    hide Text, Is, TokenName;
    assert Is(132, "DO", 61) by { IsWord(132, 33, 0, "DO", "", "DO", 61); }
    assert Is(133, "INITIALLY", 64) by { IsWord(133, 33, 3, "INITIALLY", "", "INITIALLY", 64); }
    assert Is(134, "ALL", 124) by { IsWord(134, 33, 8, "ALL", "", "ALL", 124); }
    assert Is(135, "PRIMARY", 111) by { IsWord(135, 33, 12, "PRIMAR", "Y", "PRIMARY", 111); }
  }

  /** The keyword's text and code are a word and its token. */
  predicate Named(k: nat)
    requires k < KEYWORDS
  {
    KWCode(k) < 155 && Is(k, Text(k), KWCode(k))
  }

  lemma NamedBelow(k: nat)
    requires k < 68
    ensures Named(k)
  {
    hide Text, KWCode, TokenName, Alias;
    match k
    case 0 | 1 | 2 | 3 => Words0();
    case 4 | 5 | 6 | 7 => Words4();
    case 8 | 9 | 10 | 11 => Words8();
    case 12 | 13 | 14 | 15 => Words12();
    case 16 | 17 | 18 | 19 => Words16();
    case 20 | 21 | 22 | 23 => Words20();
    case 24 | 25 | 26 | 27 => Words24();
    case 28 | 29 | 30 | 31 => Words28();
    case 32 | 33 | 34 | 35 => Words32();
    case 36 | 37 | 38 | 39 => Words36();
    case 40 | 41 | 42 | 43 => Words40();
    case 44 | 45 | 46 | 47 => Words44();
    case 48 | 49 | 50 | 51 => Words48();
    case 52 | 53 | 54 | 55 => Words52();
    case 56 | 57 | 58 | 59 => Words56();
    case 60 | 61 | 62 | 63 => Words60();
    case _ => Words64();
  }

  lemma NamedAbove(k: nat)
    requires 68 <= k < KEYWORDS
    ensures Named(k)
  {
    hide Text, KWCode, TokenName, Alias;
    match k
    case 68 | 69 | 70 | 71 => Words68();
    case 72 | 73 | 74 | 75 => Words72();
    case 76 | 77 | 78 | 79 => Words76();
    case 80 | 81 | 82 | 83 => Words80();
    case 84 | 85 | 86 | 87 => Words84();
    case 88 | 89 | 90 | 91 => Words88();
    case 92 | 93 | 94 | 95 => Words92();
    case 96 | 97 | 98 | 99 => Words96();
    case 100 | 101 | 102 | 103 => Words100();
    case 104 | 105 | 106 | 107 => Words104();
    case 108 | 109 | 110 | 111 => Words108();
    case 112 | 113 | 114 | 115 => Words112();
    case 116 | 117 | 118 | 119 => Words116();
    case 120 | 121 | 122 | 123 => Words120();
    case 124 | 125 | 126 | 127 => Words124();
    case 128 | 129 | 130 | 131 => Words128();
    case _ => Words132();
  }

  /** Every keyword stands for the token with its name, or is one of the words that share a token. */
  lemma {:induction false} EveryKeywordIsNamed(k: nat)
    requires k < KEYWORDS
    ensures Named(k)
  {
    hide Named;
    if k < 68 { NamedBelow(k); } else { NamedAbove(k); }
  }

  /** What the lookup finds for a string is the token of a word that the string is a variant of. */
  lemma {:induction false} CodesAreTokens(z: seq<Octet>)
    ensures Search(z, 0).Some? ==>
      var k := Search(z, 0).value;
      Matches(z, k) && KWCode(k) < 155 && (Text(k) == TokenName(KWCode(k)) || Alias(KWCode(k), Text(k)))
  {
    hide Text, KWCode, TokenName, Alias, Matches;
    if Search(z, 0).Some? {
      EveryKeywordIsNamed(Search(z, 0).value);
    }
  }

  /** A listed word is found in any case, and its code is the listed token. */
  lemma {:induction false} WordIsFound(z: seq<Octet>, k: nat, word: string, code: nat)
    requires k < KEYWORDS && code < 155 && Is(k, word, code)
    requires |z| == |word| && forall j :: 0 <= j < |z| ==> CaseVariant(z[j], word[j])
    ensures Search(z, 0) == Some(k) && KWCode(k) == code
  {
    hide Text, KWCode, TokenName, Alias;
    MatchesAreCaseVariants(z, k);
    Found(z, k);
  }

  /** SELECT, in any case, is the token 127. */
  lemma {:induction false} SelectIsFound(z: seq<Octet>)
    requires |z| == 6 && forall j :: 0 <= j < 6 ==> CaseVariant(z[j], "SELECT"[j])
    ensures Search(z, 0) == Some(18) && KWCode(18) == 127
  {
    hide Is, Search, KWCode, CaseVariant;
    Words16();
    WordIsFound(z, 18, "SELECT", 127);
  }
}
