/**
 * `getConstLabels`: the labels attached to every series of every gauge
 * vector. The host name, the contents of the optional host-name file and the
 * custom-label flag are inputs here; the flag parsing and the file system are
 * not modelled.
 */
module ConstLabels {
  import opened Wrappers
  import opened Strings

  /** The custom label names: none for an empty flag, otherwise its comma-separated pieces. */
  function CustomLabelNames(customLabels: string): (names: seq<string>)
    ensures customLabels == "" ==> names == []
    ensures customLabels != "" ==> |names| == Count(customLabels, ',') + 1
    ensures forall k :: 0 <= k < |names| ==> ',' !in names[k]
    ensures Join(names, ",") == customLabels
  {
    if customLabels == "" then []
    else
      JoinSplit(customLabels, ',');
      SplitPieces(customLabels, ',');
      Split(customLabels, ',')
  }

  /** `m` with each of `names` set to "true", in order. */
  function MarkTrue(m: map<string, string>, names: seq<string>): map<string, string>
  {
    if names == [] then m else MarkTrue(m, names[..|names| - 1])[names[|names| - 1] := "true"]
  }

  /** Marking adds exactly the names as keys, maps each to "true" and leaves the other keys alone. */
  lemma {:induction false} MarkTrueShape(m: map<string, string>, names: seq<string>)
    ensures MarkTrue(m, names).Keys == m.Keys + set n | n in names
    ensures forall n :: n in names ==> MarkTrue(m, names)[n] == "true"
    ensures forall k :: k in m && k !in names ==> MarkTrue(m, names)[k] == m[k]
  {
    if names != [] {
      var init := names[..|names| - 1];
      MarkTrueShape(m, init);
      assert names == init + [names[|names| - 1]];
      assert forall n :: n in names <==> n in init || n == names[|names| - 1];
    }
  }

  /**
   * The labels the custom names are marked on: "hostname", and "host_hostname"
   * when the host-name file was read.
   */
  lemma {:induction false} MarkedLabels(base: map<string, string>, host: string, file: Option<string>, names: seq<string>)
    requires base == if file.Some? then map["hostname" := host, "host_hostname" := file.value] else map["hostname" := host]
    ensures MarkTrue(base, names).Keys ==
      {"hostname"} + (if file.Some? then {"host_hostname"} else {}) + (set n | n in names)
    ensures forall n :: n in names ==> MarkTrue(base, names)[n] == "true"
    ensures "hostname" !in names ==> MarkTrue(base, names)["hostname"] == host
    ensures "host_hostname" !in names && file.Some? ==> MarkTrue(base, names)["host_hostname"] == file.value
  {
    MarkTrueShape(base, names);
    assert base.Keys == {"hostname"} + (if file.Some? then {"host_hostname"} else {});
  }

  /**
   * Builds the constant labels from `hostname` (the result of asking the OS,
   * `None` on error), the host-name file path and what reading it gives, and
   * the custom-label flag. "hostname" is always present; "host_hostname" holds
   * the raw file contents when a path is given and the read succeeds; every
   * custom name maps to "true" and, being written last, wins over the two
   * others.
   */
  method GetConstLabels(hostname: Option<string>, hostnamePath: string, hostnameFile: Option<string>, customLabels: string)
    returns (constLabels: map<string, string>)
    ensures constLabels.Keys ==
      {"hostname"}
      + (if hostnamePath != "" && hostnameFile.Some? then {"host_hostname"} else {})
      + (set n | n in CustomLabelNames(customLabels))
    ensures forall n :: n in CustomLabelNames(customLabels) ==> constLabels[n] == "true"
    ensures "hostname" !in CustomLabelNames(customLabels) ==>
      constLabels["hostname"] == (if hostname.Some? then hostname.value else "")
    ensures "host_hostname" !in CustomLabelNames(customLabels) && hostnamePath != "" && hostnameFile.Some? ==>
      constLabels["host_hostname"] == hostnameFile.value
  {
    var host := if hostname.Some? then hostname.value else "";
    constLabels := map["hostname" := host];

    if hostnamePath != "" {
      if hostnameFile.Some? {
        constLabels := constLabels["host_hostname" := hostnameFile.value];
      }
    }

    ghost var fixed := constLabels;
    ghost var file := if hostnamePath != "" then hostnameFile else None;
    var names := CustomLabelNames(customLabels);
    if customLabels != "" {
      for i := 0 to |names|
        invariant constLabels == MarkTrue(fixed, names[..i])
      {
        assert names[..i + 1][..i] == names[..i];
        assert MarkTrue(fixed, names[..i + 1]) == MarkTrue(fixed, names[..i])[names[i] := "true"];
        constLabels := constLabels[names[i] := "true"];
      }
      assert names[..|names|] == names;
    }
    MarkedLabels(fixed, host, file, names);
  }
}
