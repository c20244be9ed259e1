/**
 The two fixed lookups of the loader: season code to Indonesian season name,
 weekday code to English day name. Both are applied with `Series.map(dict)`,
 so a code missing from the dictionary yields an absent label, never an error.
 */
module Labels {
  import opened Wrappers

  /** `Series.map` with a dictionary, for one cell. */
  function Lookup<K, V>(m: map<K, V>, k: K): (r: Option<V>)
    ensures r.Some? <==> k in m
    ensures r.Some? ==> r.value == m[k]
  {
    if k in m then Some(m[k]) else None
  }

  const SeasonMapping: map<int, string> :=
    map[1 := "Musim Dingin", 2 := "Musim Semi", 3 := "Musim Panas", 4 := "Musim Gugur"]

  const WeekdayMapping: map<int, string> :=
    map[0 := "Sunday", 1 := "Monday", 2 := "Tuesday", 3 := "Wednesday",
        4 := "Thursday", 5 := "Friday", 6 := "Saturday"]

  /** The label of a season code: defined exactly for the codes 1 to 4. */
  function SeasonName(code: int): (r: Option<string>)
    ensures r.Some? <==> 1 <= code <= 4
    ensures r.Some? ==> r.value in SeasonMapping.Values
  {
    Lookup(SeasonMapping, code)
  }

  /** Reads a season label back to its code; the inverse of `SeasonName`. */
  function SeasonCode(name: string): (r: Option<int>)
    ensures r.Some? <==> name in SeasonMapping.Values
    ensures r.Some? ==> SeasonName(r.value) == Some(name)
  {
    if name == "Musim Dingin" then
      assert SeasonMapping[1] in SeasonMapping.Values; Some(1)
    else if name == "Musim Semi" then
      assert SeasonMapping[2] in SeasonMapping.Values; Some(2)
    else if name == "Musim Panas" then
      assert SeasonMapping[3] in SeasonMapping.Values; Some(3)
    else if name == "Musim Gugur" then
      assert SeasonMapping[4] in SeasonMapping.Values; Some(4)
    else None
  }

  /** The label of a weekday code, with Sunday as day 0: defined exactly for 0 to 6. */
  function WeekdayName(code: int): (r: Option<string>)
    ensures r.Some? <==> 0 <= code <= 6
    ensures r.Some? ==> r.value in WeekdayMapping.Values
  {
    Lookup(WeekdayMapping, code)
  }

  /** Reads a day name back to its weekday code; the inverse of `WeekdayName`. */
  function WeekdayCode(name: string): (r: Option<int>)
    ensures r.Some? <==> name in WeekdayMapping.Values
    ensures r.Some? ==> WeekdayName(r.value) == Some(name)
  {
    if name == "Sunday" then
      assert WeekdayMapping[0] in WeekdayMapping.Values; Some(0)
    else if name == "Monday" then
      assert WeekdayMapping[1] in WeekdayMapping.Values; Some(1)
    else if name == "Tuesday" then
      assert WeekdayMapping[2] in WeekdayMapping.Values; Some(2)
    else if name == "Wednesday" then
      assert WeekdayMapping[3] in WeekdayMapping.Values; Some(3)
    else if name == "Thursday" then
      assert WeekdayMapping[4] in WeekdayMapping.Values; Some(4)
    else if name == "Friday" then
      assert WeekdayMapping[5] in WeekdayMapping.Values; Some(5)
    else if name == "Saturday" then
      assert WeekdayMapping[6] in WeekdayMapping.Values; Some(6)
    else None
  }

  /** Every defined season label decodes to the code it came from. */
  lemma SeasonNameRoundTrip(code: int)
    requires 1 <= code <= 4
    ensures SeasonCode(SeasonName(code).value) == Some(code)
  {
  }

  /** Every defined weekday label decodes to the code it came from. */
  lemma WeekdayNameRoundTrip(code: int)
    requires 0 <= code <= 6
    ensures WeekdayCode(WeekdayName(code).value) == Some(code)
  {
  }

  /** Distinct codes never share a label. */
  lemma LabelsInjective(a: int, b: int)
    ensures SeasonName(a).Some? && SeasonName(a) == SeasonName(b) ==> a == b
    ensures WeekdayName(a).Some? && WeekdayName(a) == WeekdayName(b) ==> a == b
  {
    if SeasonName(a).Some? && SeasonName(a) == SeasonName(b) {
      SeasonNameRoundTrip(a);
      SeasonNameRoundTrip(b);
    }
    if WeekdayName(a).Some? && WeekdayName(a) == WeekdayName(b) {
      WeekdayNameRoundTrip(a);
      WeekdayNameRoundTrip(b);
    }
  }

  /** The concrete tables, and the codes just outside them. */
  lemma LabelTables()
    ensures SeasonName(1) == Some("Musim Dingin") && SeasonName(2) == Some("Musim Semi")
    ensures SeasonName(3) == Some("Musim Panas") && SeasonName(4) == Some("Musim Gugur")
    ensures SeasonName(0) == None && SeasonName(5) == None
    ensures WeekdayName(0) == Some("Sunday") && WeekdayName(1) == Some("Monday")
    ensures WeekdayName(2) == Some("Tuesday") && WeekdayName(3) == Some("Wednesday")
    ensures WeekdayName(4) == Some("Thursday") && WeekdayName(5) == Some("Friday")
    ensures WeekdayName(6) == Some("Saturday")
    ensures WeekdayName(-1) == None && WeekdayName(7) == None
  {
  }
}
