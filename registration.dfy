/** The text rules of `register_action`: reading a manually entered
    `Name#Tag` and building the summoner string sent with the code. */
module Registration {
  import opened Common
  import opened Text

  /** Lines 281-287: the input is refused when the dialog was cancelled
      (`None`), when it is empty, or when it has no `#`; otherwise the name
      and tag are the stripped parts around the first `#`. */
  function ParseManualInput(input: Option<string>): (r: Option<(string, string)>)
    ensures r.None? <==> input.None? || '#' !in input.value
    ensures r.Some? ==> NoEdgeSpace(r.value.0) && NoEdgeSpace(r.value.1)
  {
    if !Truthy(input) || '#' !in input.value then None
    else
      var (before, after) := SplitFirst(input.value, '#').value;
      Some((Strip(before), Strip(after)))
  }

  /** The name and tag read from `name#tag` are the stripped parts around
      that first `#`, whatever the tag contains. */
  lemma ManualInputOfJoined(name: string, tag: string)
    requires '#' !in name
    ensures ParseManualInput(Some(name + "#" + tag)) == Some((Strip(name), Strip(tag)))
  {
    assert name + "#" + tag == name + ['#'] + tag;
    assert (name + "#" + tag)[|name|] == '#';
    SplitFirstOfJoin(name, tag, '#');
  }

  /** Lines 292-294: `name#tag`, followed by `,region` only when the region
      is set and not empty. */
  function Display(name: string, tag: string, region: Option<string>): string {
    name + "#" + tag + (if Truthy(region) then "," + region.value else "")
  }

  /** The display string splits back into its parts: at the first `#` into
      the name and the rest, and the rest at its first `,` into the tag and
      the region when a region was appended. */
  lemma DisplayRoundTrip(name: string, tag: string, region: Option<string>)
    requires '#' !in name && ',' !in tag
    ensures var d := Display(name, tag, region);
      var rest := if Truthy(region) then tag + "," + region.value else tag;
      && SplitFirst(d, '#') == Some((name, rest))
      && (Truthy(region) ==> SplitFirst(rest, ',') == Some((tag, region.value)))
      && (!Truthy(region) ==> ',' !in rest)
  {
    var rest := if Truthy(region) then tag + "," + region.value else tag;
    assert Display(name, tag, region) == name + ['#'] + rest;
    SplitFirstOfJoin(name, rest, '#');
    if Truthy(region) {
      assert rest == tag + [','] + region.value;
      SplitFirstOfJoin(tag, region.value, ',');
    }
  }
}
