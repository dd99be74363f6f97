/** The glossary tables of src/utils/characterData.js: the radical and the
    Sino-Vietnamese (Han-Viet) reading of common characters, looked up by
    the first character of a word. */
module CharacterData {
  import opened JsValues

  /** What a lookup gives when there is nothing to show. */
  const Missing: string := "\U{2014}"

  /** `RADICALS` (the source lists 在 three times and 现 twice, always with
      the same radical; each appears once here). */
  const Radicals: map<string, string> := map[
      "你" := "亻", "好" := "女", "我" := "戈", "是" := "日", "在" := "土", "有" := "月",
      "不" := "一", "了" := "亅", "的" := "白", "和" := "口", "中" := "丨", "大" := "大",
      "人" := "人", "这" := "辶", "上" := "一", "国" := "囗", "个" := "丨", "到" := "至",
      "说" := "讠", "们" := "亻", "为" := "灬", "子" := "子", "他" := "亻", "她" := "女",
      "爸" := "父", "妈" := "女", "哥" := "口", "姐" := "女", "孩" := "子", "谁" := "讠",
      "现" := "王", "几" := "几", "点" := "灬", "名" := "口", "字" := "子", "叫" := "口",
      "什" := "亻", "么" := "丿", "老" := "耂", "师" := "巾", "王" := "王", "学" := "子",
      "生" := "生", "书" := "丨", "本" := "木", "笔" := "竹", "桌" := "木", "椅" := "木",
      "门" := "门", "窗" := "穴", "房" := "户", "家" := "宀", "吃" := "口", "喝" := "口",
      "饭" := "饣", "水" := "水", "茶" := "艹", "买" := "贝", "卖" := "贝", "钱" := "钅",
      "工" := "工", "作" := "亻", "时" := "日", "间" := "门", "年" := "干", "月" := "月",
      "日" := "日", "今" := "人", "明" := "日", "昨" := "日", "天" := "大", "星" := "日",
      "期" := "月"
  ]

  /** `HAN_VIET`. */
  const HanViet: map<string, string> := map[
      "中" := "trung", "国" := "quốc", "人" := "nhân", "大" := "đại", "小" := "tiểu", "上" := "thượng",
      "下" := "hạ", "学" := "học", "生" := "sinh", "老" := "lão", "师" := "sư", "名" := "danh",
      "字" := "tự", "时" := "thời", "间" := "gian", "年" := "niên", "月" := "nguyệt", "日" := "nhật",
      "今" := "kim", "明" := "minh", "昨" := "tạc", "天" := "thiên", "星" := "tinh", "期" := "kỳ",
      "你" := "nhĩ", "我" := "ngã", "他" := "tha", "她" := "tha", "好" := "hảo", "是" := "thị",
      "在" := "tại", "有" := "hữu", "不" := "bất", "了" := "liễu", "的" := "đích", "和" := "hòa",
      "这" := "giá", "那" := "na", "个" := "cá", "到" := "đáo", "说" := "thuyết", "们" := "môn",
      "为" := "vi", "子" := "tử", "爸" := "bá", "妈" := "ma", "哥" := "ca", "姐" := "tỷ",
      "孩" := "hài", "谁" := "thuỳ", "现" := "hiện", "几" := "kỷ", "点" := "điểm", "叫" := "khiếu",
      "什" := "thập", "么" := "ma", "王" := "vương", "书" := "thư", "本" := "bản", "笔" := "bút",
      "工" := "công", "作" := "tác", "买" := "mãi", "卖" := "mại", "钱" := "tiền", "吃" := "ngật",
      "喝" := "hát", "饭" := "phạn", "水" := "thủy", "茶" := "trà", "家" := "gia", "房" := "phòng",
      "门" := "môn", "窗" := "song", "桌" := "trác", "椅" := "ỷ"
  ]

  /** The table key a glossary lookup uses: a string's first character, the
      `String(v)` of anything else. */
  function LookupKey(v: JsValue): string
  {
    if v.Str? && v.s != "" then v.s[..1] else ToJsString(v)
  }

  /** `table[key] || "—"`: the entry when it is a non-empty string. */
  function Entry(table: map<string, string>, key: string): (r: string)
    ensures key in table && table[key] != "" ==> r == table[key]
    ensures key !in table || table[key] == "" ==> r == Missing
  {
    if key in table && table[key] != "" then table[key] else Missing
  }

  /** `getRadical(char)`: "—" for a falsy input, else the radical of its
      first character, or "—" when the table has none. */
  function GetRadical(text: JsValue): (r: string)
    ensures !Truthy(text) ==> r == Missing
    ensures Truthy(text) ==> r == Entry(Radicals, LookupKey(text))
  {
    if !Truthy(text) then Missing else Entry(Radicals, LookupKey(text))
  }

  /** `getHanViet(char)`, the same lookup in the Han-Viet table. */
  function GetHanViet(text: JsValue): (r: string)
    ensures !Truthy(text) ==> r == Missing
    ensures Truthy(text) ==> r == Entry(HanViet, LookupKey(text))
  {
    if !Truthy(text) then Missing else Entry(HanViet, LookupKey(text))
  }

  /** A word's radical and reading are those of its first character. */
  lemma WordUsesFirstCharacter(word: string)
    requires word != ""
    ensures GetRadical(Str(word)) == GetRadical(Str(word[..1]))
    ensures GetHanViet(Str(word)) == GetHanViet(Str(word[..1]))
  {
    assert word[..1][..1] == word[..1];
  }

  /** Two words with the same first character get the same radical and
      reading. */
  lemma SameFirstCharacter(a: string, b: string)
    requires a != "" && b != "" && a[0] == b[0]
    ensures GetRadical(Str(a)) == GetRadical(Str(b)) && GetHanViet(Str(a)) == GetHanViet(Str(b))
  {
    assert a[..1] == [a[0]] == b[..1];
  }

  /** A one-character key of a table finds its own entry, and every
      lookup gives either an entry of the table or "—". */
  lemma LookupFindsEntries(k: string, text: JsValue)
    requires |k| == 1
    ensures k in Radicals && Radicals[k] != "" ==> GetRadical(Str(k)) == Radicals[k]
    ensures k in HanViet && HanViet[k] != "" ==> GetHanViet(Str(k)) == HanViet[k]
    ensures GetRadical(text) == Missing || GetRadical(text) in Radicals.Values
    ensures GetHanViet(text) == Missing || GetHanViet(text) in HanViet.Values
  {
    assert k[..1] == k;
  }
}
