/** The embed snippet for a deployed chatbot: a floating button that opens the chatbot's page in a
    frame (`generate_embed_code`). */
module CodeGeneratorAgent {
  import opened Wrappers

  /** The integration comment and the icon stylesheet link, after a leading newline. */
  const Header: string :=
    "\n" +
    "<!-- Xalt Chatbot Integration -->\n" +
    "<link rel=\"stylesheet\" href=\"https://cdnjs.cloudflare.com/ajax/libs/font-awesome/6.4.0/css/all.min.css\">\n"

  /** The styles of the floating button and of the hidden frame. */
  const Style: string :=
    "<style>\n" +
    "  #chatbot-button { position: fixed; bottom: 20px; right: 20px; background-color: #4CAF50; color: white; border: none; border-radius: 50%; padding: 15px; cursor: pointer; z-index: 1000; }\n" +
    "  #chatbot-frame { display: none; position: fixed; bottom: 80px; right: 20px; width: 400px; height: 600px; border: none; z-index: 1000; box-shadow: 0px 0px 10px rgba(0,0,0,0.3); }\n" +
    "</style>\n"

  /** The floating button. */
  const Button: string :=
    "<button id=\"chatbot-button\"><i class=\"fas fa-comment\"></i></button>\n"

  /** The frame element up to its `src` value. */
  const FrameOpen: string := "<iframe id=\"chatbot-frame\" src=\""

  /** The rest of the frame element after its `src` value. */
  const FrameClose: string := "\" title=\"Xalt Chatbot\"></iframe>\n"

  /** The script that shows or hides the frame when the button is clicked. */
  const Script: string :=
    "<script>\n" +
    "  const btn = document.getElementById('chatbot-button');\n" +
    "  const frame = document.getElementById('chatbot-frame');\n" +
    "  btn.addEventListener('click', () => {\n" +
    "    frame.style.display = frame.style.display === 'none' ? 'block' : 'none';\n" +
    "  });\n" +
    "</script>\n"

  /** Everything before the URL. */
  const Prefix: string := Header + Style + Button + FrameOpen
  /** Everything after the URL. */
  const Suffix: string := FrameClose + Script

  /** `generate_embed_code(live_url)`: the fixed snippet with the URL, inserted verbatim, as the
      frame's `src`. */
  function GenerateEmbedCode(liveUrl: string): (code: string)
    ensures |code| == |Prefix| + |liveUrl| + |Suffix|
  {
    Prefix + liveUrl + Suffix
  }

  /** The text between a given beginning and end, if the code has that shape. */
  function Between(code: string, before: string, after: string): (inner: Option<string>)
    ensures inner.Some? ==> before + inner.value + after == code
  {
    if |before| + |after| <= |code| && code[..|before|] == before && code[|code| - |after|..] == after then
      var inner := code[|before|..|code| - |after|];
      assert code == code[..|before|] + inner + code[|code| - |after|..];
      Some(inner)
    else None
  }

  lemma {:induction false} BetweenOfWrapped(before: string, inner: string, after: string)
    ensures Between(before + inner + after, before, after) == Some(inner)
  {
    var code := before + inner + after;
    assert code[..|before|] == before;
    assert code[|code| - |after|..] == after;
    assert code[|before|..|code| - |after|] == inner;
  }

  /** The inverse of `GenerateEmbedCode`: the URL of a snippet it produced, `None` for any
      other text. */
  function ExtractUrl(code: string): Option<string>
  {
    Between(code, Prefix, Suffix)
  }

  /** The URL can be read back from the snippet. */
  lemma {:induction false} ExtractGenerated(liveUrl: string)
    ensures ExtractUrl(GenerateEmbedCode(liveUrl)) == Some(liveUrl)
  {
    BetweenOfWrapped(Prefix, liveUrl, Suffix);
  }

  /** Every text the inverse accepts is the snippet of the URL it reads back. */
  lemma {:induction false} GeneratedFromExtract(code: string)
    requires ExtractUrl(code).Some?
    ensures GenerateEmbedCode(ExtractUrl(code).value) == code
  {
  }

  /** Different URLs give different snippets. */
  lemma {:induction false} GenerateInjective(url1: string, url2: string)
    requires GenerateEmbedCode(url1) == GenerateEmbedCode(url2)
    ensures url1 == url2
  {
    ExtractGenerated(url1);
    ExtractGenerated(url2);
  }

  /** Slicing a text made of three parts. */
  lemma {:induction false} ThreeParts(front: string, middle: string, back: string)
    ensures var code := front + middle + back;
            code[..|front|] == front && code[|front|..|front| + |middle|] == middle && code[|code| - |back|..] == back
  {
  }

  /** The URL sits in the frame element, right after `src="` and right before the closing quote;
      the header, the styles, the button and the script are left untouched around it. */
  lemma {:induction false} UrlIsFrameSource(liveUrl: string)
    ensures var code := GenerateEmbedCode(liveUrl);
            var at := |Header| + |Style| + |Button|;
            var frame := FrameOpen + liveUrl + FrameClose;
            at + |frame| <= |code| && code[at..at + |frame|] == frame &&
            code[..at] == Header + Style + Button && code[|code| - |Script|..] == Script
  {
    Regroup(Header + Style + Button, FrameOpen, liveUrl, FrameClose, Script);
    ThreeParts(Header + Style + Button, FrameOpen + liveUrl + FrameClose, Script);
  }

  lemma {:induction false} Regroup(a: string, b: string, c: string, d: string, e: string)
    ensures (a + b) + c + (d + e) == a + (b + c + d) + e
  {
  }
}
