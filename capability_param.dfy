/** The `capability` query parameter: the selected capability tags joined
    with commas, decoded by splitting on commas. */
module CapabilityParam {
  import opened Wrappers
  import opened Text

  /** The tag list written back into the parameter: `caps.join(",")`. It is
      empty exactly when there is no tag or only the empty tag. */
  function EncodeCapabilities(caps: seq<string>): (s: string)
    ensures s == "" <==> caps == [] || caps == [""]
  {
    Join(caps, ',')
  }

  /** The selected tags a parameter value stands for: an absent or empty
      value selects nothing, any other value selects its comma-separated
      pieces, which encode back to that value. */
  function DecodeCapabilities(param: Option<string>): (caps: seq<string>)
    ensures caps == [] <==> param.None? || param.value == ""
    ensures forall i :: 0 <= i < |caps| ==> ',' !in caps[i]
    ensures caps != [] ==> EncodeCapabilities(caps) == param.value
  {
    if param.None? || param.value == "" then []
    else
      JoinSplit(param.value, ',');
      Split(param.value, ',')
  }

  /** Encoding a non-empty list of non-empty, comma-free tags and decoding
      the result gives back the same list. */
  lemma EncodeDecode(caps: seq<string>)
    requires caps != []
    requires forall i :: 0 <= i < |caps| ==> caps[i] != "" && ',' !in caps[i]
    ensures DecodeCapabilities(Some(EncodeCapabilities(caps))) == caps
  {
    SplitJoin(caps, ',');
  }

  /** Encoding a non-empty list of comma-free tags and decoding it again
      gives back the list, unless the list is the single empty tag, which
      decodes to nothing. */
  lemma DecodeEncoded(caps: seq<string>)
    requires caps != []
    requires forall i :: 0 <= i < |caps| ==> ',' !in caps[i]
    ensures DecodeCapabilities(Some(EncodeCapabilities(caps))) == if caps == [""] then [] else caps
  {
    if EncodeCapabilities(caps) != "" {
      SplitJoin(caps, ',');
    }
  }
}
