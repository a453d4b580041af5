/**
 * The values the filter and sort selectors offer.
 */
module FilterOptions {
  import opened Tasks

  /** `selectItem`: a selector entry (its `label` field is `caption` here, `label` being a Dafny keyword). */
  datatype SelectItem = SelectItem(value: string, caption: string)

  const Categories: seq<SelectItem> := [
    SelectItem("all", "همه"),
    SelectItem("personal", "شخصی"),
    SelectItem("work", "کاری"),
    SelectItem("fun", "تفریحی")
  ]

  const Priorities: seq<SelectItem> := [
    SelectItem("all", "همه"),
    SelectItem("high", "بالا"),
    SelectItem("medium", "متوسط"),
    SelectItem("low", "پایین")
  ]

  const Statuses: seq<SelectItem> := [
    SelectItem("all", "همه"),
    SelectItem("completed", "تکمیل شده"),
    SelectItem("in-progress", "در حال انجام"),
    SelectItem("not_started", "بدون وضعیت")
  ]

  const SortOptions: seq<SelectItem> := [
    SelectItem("latest", "جدیدترین‌ها"),
    SelectItem("oldest", "قدیمی‌ترها")
  ]

  /** No status the selector offers, other than "all", is the name of any
      `Status`: the two value sets are disjoint. */
  lemma StatusOptionsNameNoStatus(item: SelectItem, s: Status)
    requires item in Statuses && item.value != "all"
    ensures StatusName(s) != item.value
  {
    assert item == Statuses[1] || item == Statuses[2] || item == Statuses[3];
    assert StatusName(s)[0] != item.value[0] || |StatusName(s)| != |item.value|;
  }

  /** The priority selector offers exactly "all" and the three priority names. */
  lemma PriorityOptionsMatchPriorities(v: string)
    ensures (exists item :: item in Priorities && item.value == v)
            <==> (v == "all" || exists p :: PriorityName(p) == v)
  {
    if exists p :: PriorityName(p) == v {
      var p :| PriorityName(p) == v;
      match p
      case High => assert Priorities[1].value == v;
      case Medium => assert Priorities[2].value == v;
      case Low => assert Priorities[3].value == v;
    }
    if exists item :: item in Priorities && item.value == v {
      var item :| item in Priorities && item.value == v;
      if item == Priorities[1] { assert PriorityName(High) == v; }
      else if item == Priorities[2] { assert PriorityName(Medium) == v; }
      else if item == Priorities[3] { assert PriorityName(Low) == v; }
    }
  }
}
