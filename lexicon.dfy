/**
 * The word list of each level (`gameData`, js/game.js:392-554), without the category
 * names, sound folders and pictures, which only the display uses.
 */
module Lexicon {

  import opened SeqUtil

  const GameData: map<nat, seq<string>> := map[
    1 := ["กา", "งู", "ม้า", "ปลา", "หมา", "แมว", "กบ", "เต่า", "นก", "มด"],
    2 := ["รถ", "ถัง", "ไม้", "ตู้", "โต๊ะ", "ถ้วย", "ซ่อม", "หม้อ", "ช้อน", "แก้ว"],
    3 := ["ตา", "หู", "ปาก", "มือ", "เท้า", "ขา", "ผม", "ฟัน", "คอ", "จมูก"],
    4 := ["ฟ้า", "ดิน", "น้ำ", "ไฟ", "ลม", "เมฆ", "ดาว", "ภูเขา", "หนาว", "ร้อน"],
    5 := ["พ่อ", "แม่", "ป้า", "ลุง", "น้า", "พี่", "น้อง", "ครู", "เพื่อน", "ยาย"],
    6 := ["ดอกไม้", "ต้นไม้", "กระเป๋า", "ดินสอ", "ยางลบ", "รถไฟ", "ลำโพง", "เต้นรำ", "แต่งงาน", "ปลูกผัก"],
    7 := ["มะนาว", "มะม่วง", "มะเขือ", "กล้วย", "ขนมปัง", "ไก่ทอด", "บ้านเล็ก", "แมวน้อย", "หมาใหญ่", "น้ำหวาน"],
    8 := ["ผีเสื้อ", "แมงมุม", "เต่าทอง", "หลอดไฟ", "ดวงจันทร์", "ทะเล", "ภูเขาไฟ", "หนังสือ", "กล่อง", "เสื้อกันฝน"],
    9 := ["สมุด", "โต๊ะเรียน", "กระดานดำ", "ปากกาแดง", "ขวดน้ำ", "กล่องข้าว", "รองเท้า", "กระถาง", "รถบัส", "รถถัง"],
    10 := ["หุ่นยนต์", "เครื่องบิน", "จักรยาน", "มอเตอร์ไซค์", "ดอกทานตะวัน", "บ้านสองชั้น", "เรือดำน้ำ", "หมีขั้วโลก", "แม่น้ำ", "พระอาทิตย์"]
  ]

  /** Ten levels, numbered 1 to 10, of ten words each. */
  lemma GameDataShape()
    ensures forall level :: level in GameData <==> 1 <= level <= 10
    ensures forall level :: level in GameData ==> |GameData[level]| == 10
  {
  }

  /** The places (level, word index) of the words that hold some symbol twice. */
  const RepeatedSymbolWords: set<(nat, nat)> := {
    (5, 9),
    (6, 1), (6, 8), (6, 9),
    (7, 1), (7, 8), (7, 9),
    (8, 1), (8, 9),
    (9, 2), (9, 3), (9, 9),
    (10, 0), (10, 3), (10, 4), (10, 5), (10, 6)
  }

  /** Each listed word is in the table and repeats a symbol. */
  lemma RepeatedSymbolWordsRepeat(p: (nat, nat))
    requires p in RepeatedSymbolWords
    ensures p.0 in GameData && p.1 < |GameData[p.0]|
    ensures !Distinct(GameData[p.0][p.1])
  {
    var (level, index) := p;
    var w := GameData[level][index];
    if p == (5, 9) {
      assert w[0] == w[2];
    } else if p == (6, 1) {
      assert w[1] == w[5];
    } else if p == (6, 8) {
      assert w[3] == w[4];
    } else if p == (6, 9) {
      assert w[3] == w[6];
    } else if p == (7, 1) {
      assert w[0] == w[2];
    } else if p == (7, 8) {
      assert w[0] == w[4];
    } else if p == (7, 9) {
      assert w[0] == w[6];
    } else if p == (8, 1) {
      assert w[1] == w[3];
    } else if p == (8, 9) {
      assert w[7] == w[9];
    } else if p == (9, 2) {
      assert w[3] == w[6];
    } else if p == (9, 3) {
      assert w[2] == w[3];
    } else if p == (9, 9) {
      assert w[1] == w[2];
    } else if p == (10, 0) {
      assert w[3] == w[5];
    } else if p == (10, 3) {
      assert w[1] == w[4];
    } else if p == (10, 4) {
      assert w[5] == w[10];
    } else if p == (10, 5) {
      assert w[1] == w[9];
    } else if p == (10, 6) {
      assert w[5] == w[8];
    }
  }
}
