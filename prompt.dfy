/**
 * The prompt sent to the language model: fixed Mongolian instructions around
 * the context lines of the kept search results.
 */
module Prompting {
  import opened Strings
  import opened Script

  /** The fixed summary used when nothing qualifies; the prompt also quotes it. */
  const NoInfoSummary: string :=
    "Олон нийтэд ил мэдээлэл олдсонгүй, уг дугаарын үйл ажиллагааг тодорхойлох боломжгүй байна."

  /** The instruction text of the prompt, up to the context. */
  const PromptInstructions: string := PromptPersona + PromptRules

  /** The first line of the instructions. Its first word is a separate
      literal so that proofs about the first character need not unfold the
      whole line. */
  const PromptPersona: string := "Та" + " бол утасны дугаарын талаарх мэдээллийг нэгтгэн дүгнэдэг туслах."

  /** The rest of the instructions: the length, language and phrasing rules,
      the fallback sentence and the heading of the snippets. */
  const PromptRules: string :=
    "\n- ЯГ 2–3 өгүүлбэртэй. Урт өгүүлбэр хэрэггүй товч тодорхой.\n"
    + "- Монгол хэлээр\n"
    + "- \"энэ дугаарын эзэн иймэрхүү зүйлс цахим сүлжээнд тавьсан учир ийм хүн байж магадгүй\" гэсэн хэлбэрээр дүгнэлт гарга.\n"
    + "\n"
    + "Хэрвээ мэдээлэл хангалтгүй бол:\n"
    + "\"" + NoInfoSummary + "\" гэж бич.\n"
    + "\n"
    + "Хайлтын snippet-үүд:"

  /** The prompt: the template, with the context in place, stripped. */
  function Prompt(context: string): string {
    Strip("\n" + PromptInstructions + "\n" + context + "\n")
  }

  /** The instructions start with a Cyrillic letter, so not with whitespace. */
  lemma InstructionsStartClean()
    ensures PromptInstructions != [] && !IsWhitespace(PromptInstructions[0])
  {
    assert IsCyrillic(PromptPersona[0]);
    CyrillicIsNotWhitespace(PromptPersona[0]);
  }

  /** With a context that ends in a non-whitespace character, stripping only
      removes the template's outer newlines: the prompt is the instructions,
      a newline and the context, verbatim. */
  lemma PromptShape(context: string)
    requires context != [] && !IsWhitespace(context[|context| - 1])
    ensures Prompt(context) == PromptInstructions + "\n" + context
  {
    InstructionsStartClean();
    StripFramed(PromptInstructions, context);
  }
}
