/**
 The tool's output on a one-plugin registry, as worked examples.
 */
module Scenarios {
  import opened Optional
  import opened Registry
  import opened Args
  import opened Index
  import opened Tool

  /** A registry holding the `videoconvert` plugin with its one element. */
  function VideoRegistry(): seq<Entry>
  {
    [Some(Plugin(Some("videoconvert"), Some("/lib/gst/libvideoconvert.so"), [ElementFactory("videoconvert")]))]
  }

  const VideoPath := "/lib/gst/libvideoconvert.so"

  /** Looking `videoconvert` up as an element or as a plugin prints the
      same file. */
  lemma VideoConvertFound(prog: string, flag: string)
    requires flag == "--elements" || flag == "--plugins"
    ensures Execute([prog, flag, "videoconvert"], VideoRegistry()) == VideoPath + " \n"
  {
    var argv := [prog, flag, "videoconvert"];
    var es := VideoRegistry();
    assert "videoconvert"[..2][0] == 'v';
    OptionsThenNames(argv, [flag], "videoconvert", []);
    assert FirstProvider(es, 0, "videoconvert");
    if flag == "--elements" {
      assert Parse(argv).LookupMode() == ByElement;
      assert FirstOffer(es, 0, "videoconvert");
      ElementResolvesToFirstProvider(es, "videoconvert", 0, 0);
    } else {
      assert Parse(argv).LookupMode() == ByPlugin;
      PluginResolvesToFirstProvider(es, "videoconvert", 0);
    }
    assert Output.Words([VideoPath]) == VideoPath + " ";
  }

  /** An unknown element prints nothing at all, not even a newline. */
  lemma UnknownElementSilent(prog: string, q: string)
    requires !IsOption(q) && q != "videoconvert"
    ensures Execute([prog, "--elements", q], VideoRegistry()) == ""
  {
    var argv := [prog, "--elements", q];
    var es := VideoRegistry();
    OptionsThenNames(argv, ["--elements"], q, []);
    assert Parse(argv).LookupMode() == ByElement;
    ElementMapSpec(es, q);
    assert !Offers(es[0], q);
  }

  /** The last mode flag wins. */
  lemma LastModeFlagWins()
    ensures Parse(["gst-analyzer", "--elements", "--plugins", "X"]) == Flags(false, true, false, 3)
    ensures Parse(["gst-analyzer", "--plugins", "--elements", "X"]) == Flags(true, true, false, 3)
  {
  }
}
