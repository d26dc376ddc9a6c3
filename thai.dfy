/**
 * The Thai symbol tables the keyboard draws on (js/game.js:556-558 and the keys of the
 * consonant image table at js/game.js:947-953). Combining vowel signs and tone marks are
 * written as code points.
 */
module Thai {

  /** The 41 consonants from which consonant decoys are drawn. */
  const ConsonantPool: seq<char> :=
    [
      'ก', 'ข', 'ค', 'ง', 'จ', 'ฉ', 'ช', 'ซ', 'ฌ', 'ญ', 'ฎ',
      'ฏ', 'ฐ', 'ฑ', 'ฒ', 'ณ', 'ด', 'ต', 'ถ', 'ท', 'ธ', 'น',
      'บ', 'ป', 'ผ', 'ฝ', 'พ', 'ฟ', 'ภ', 'ม', 'ย', 'ร', 'ล',
      'ว', 'ศ', 'ษ', 'ส', 'ห', 'ฬ', 'อ', 'ฮ'
    ]

  /** The 19 vowel signs and tone marks from which the other decoys are drawn. */
  const VowelPool: seq<char> :=
    [
      'ะ', 'า', '\U{E34}', '\U{E35}', '\U{E36}', '\U{E37}', '\U{E38}', '\U{E39}', 'เ', 'แ',
      'โ', 'ใ', 'ไ', 'ำ', '\U{E31}', '\U{E48}', '\U{E49}', '\U{E4A}', '\U{E4B}'
    ]

  /**
   * The consonants that have a tile image: 44 letters, the pool plus three obsolete ones.
   * Every image number in the source table is positive, so a symbol is looked up as a
   * consonant exactly when it is a key of that table.
   */
  const ConsonantImageKeys: set<char> :=
    {
      'ก', 'ข', 'ฃ', 'ค', 'ฅ', 'ฆ', 'ง', 'จ', 'ฉ', 'ช', 'ซ',
      'ฌ', 'ญ', 'ฎ', 'ฏ', 'ฐ', 'ฑ', 'ฒ', 'ณ', 'ด', 'ต', 'ถ',
      'ท', 'ธ', 'น', 'บ', 'ป', 'ผ', 'ฝ', 'พ', 'ฟ', 'ภ', 'ม',
      'ย', 'ร', 'ล', 'ว', 'ศ', 'ษ', 'ส', 'ห', 'ฬ', 'อ', 'ฮ'
    }

  /** A symbol the keyboard places in the consonant section (so also อ, ย and ว). */
  predicate IsConsonantClass(c: char)
  {
    c in ConsonantImageKeys
  }
}
