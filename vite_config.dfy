/** vite.config.ts: `manualChunks`, which puts the heavy vendor libraries of the
    client build into chunks of their own. */
module ViteConfig {
  import opened TextUtil

  const FramerMotion: string := "framer-motion"
  const ReactMarkdown: string := "react-markdown"
  const RadixUi: string := "radix-ui"
  const Html2Canvas: string := "html2canvas"
  const JsPdf: string := "jspdf"

  const ChunkNames: set<string> := {FramerMotion, ReactMarkdown, RadixUi, Html2Canvas, JsPdf}

  /** The chunk of a module id; `None` leaves it to the bundler's default. */
  function ManualChunk(id: string): (r: Option<string>)
    ensures r.Some? ==> Contains(id, "node_modules") && r.value in ChunkNames
  {
    if Contains(id, "node_modules") then
      if Contains(id, FramerMotion) then Some(FramerMotion)
      else if Contains(id, ReactMarkdown) || Contains(id, "remark-gfm") then Some(ReactMarkdown)
      else if Contains(id, "@radix-ui") then Some(RadixUi)
      else if Contains(id, Html2Canvas) then Some(Html2Canvas)
      else if Contains(id, JsPdf) then Some(JsPdf)
      else None
    else None
  }

  /** Only ids under node_modules are put into a chunk. */
  lemma OutsideNodeModules(id: string)
    requires !Contains(id, "node_modules")
    ensures ManualChunk(id) == None
  {
  }

  /** "framer-motion" is tested first and wins over every later rule. */
  lemma FramerMotionWins(id: string)
    requires Contains(id, "node_modules") && Contains(id, FramerMotion)
    ensures ManualChunk(id) == Some(FramerMotion)
  {
  }

  /** The markdown renderer and its GFM plugin share one chunk. */
  lemma MarkdownTogether(id: string)
    requires Contains(id, "node_modules") && !Contains(id, FramerMotion)
    requires Contains(id, ReactMarkdown) || Contains(id, "remark-gfm")
    ensures ManualChunk(id) == Some(ReactMarkdown)
  {
  }

  /** "@radix-ui", "html2canvas" and "jspdf" follow, in that order of priority. */
  lemma LaterRulesInOrder(id: string)
    requires Contains(id, "node_modules") && !Contains(id, FramerMotion)
    requires !Contains(id, ReactMarkdown) && !Contains(id, "remark-gfm")
    ensures Contains(id, "@radix-ui") ==> ManualChunk(id) == Some(RadixUi)
    ensures !Contains(id, "@radix-ui") && Contains(id, Html2Canvas) ==> ManualChunk(id) == Some(Html2Canvas)
    ensures !Contains(id, "@radix-ui") && !Contains(id, Html2Canvas) && Contains(id, JsPdf) ==> ManualChunk(id) == Some(JsPdf)
  {
  }

  /** A node_modules id that matches no rule gets no chunk. */
  lemma NoRuleNoChunk(id: string)
    requires !Contains(id, FramerMotion) && !Contains(id, ReactMarkdown) && !Contains(id, "remark-gfm")
    requires !Contains(id, "@radix-ui") && !Contains(id, Html2Canvas) && !Contains(id, JsPdf)
    ensures ManualChunk(id) == None
  {
  }

  /** A chunk is only ever named after a library the id mentions (the markdown
      chunk also takes the GFM plugin). */
  lemma {:induction false} ChunkNamesItsLibrary(id: string)
    requires ManualChunk(id).Some?
    ensures var c := ManualChunk(id).value;
            Contains(id, c) || (c == ReactMarkdown && Contains(id, "remark-gfm"))
  {
    if !Contains(id, FramerMotion) && !Contains(id, ReactMarkdown) && !Contains(id, "remark-gfm")
       && Contains(id, "@radix-ui") {
      RadixInRadixUi(id);
    }
  }

  lemma RadixInRadixUi(id: string)
    requires Contains(id, "@radix-ui")
    ensures Contains(id, RadixUi)
  {
    var i := IndexOf(id, "@radix-ui");
    assert id[i + 1..i + 9] == "@radix-ui"[1..];
    ContainsWitness(id, RadixUi, i + 1);
  }
}
