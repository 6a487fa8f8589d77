/** `LLM.get_llm`: choosing a chat backend from a name. A configuration value stands for
    the client the source constructs. */
module LlmHelper {
  import opened Errors

  datatype Backend = Groq | OpenAI

  /** The backend, its model name and its sampling temperature (always zero). */
  datatype LlmConfig = LlmConfig(backend: Backend, model: string, temperature: nat)

  const GroqConfig: LlmConfig := LlmConfig(Groq, "llama-3.1-8b-instant", 0)
  const OpenAiConfig: LlmConfig := LlmConfig(OpenAI, "gpt-4o", 0)

  function LowerChar(c: char): char {
    if 'A' <= c <= 'Z' then (c as int + 32) as char else c
  }

  function UpperChar(c: char): char {
    if 'a' <= c <= 'z' then (c as int - 32) as char else c
  }

  /** `s.lower()`, on the ASCII letters. */
  function Lower(s: string): (r: string)
    ensures |r| == |s|
    ensures forall i :: 0 <= i < |s| ==> r[i] == LowerChar(s[i])
  {
    seq(|s|, i requires 0 <= i < |s| => LowerChar(s[i]))
  }

  predicate IsGroqName(name: string) {
    Lower(name) == "groq"
  }

  predicate IsOpenAiName(name: string) {
    Lower(name) in ["openai", "gpt", ""]
  }

  /** `LLM.get_llm(llm_name)`. The `ValueError` for an unknown name is caught by the
      method's own handler and raised again as a `RuntimeError`. */
  function GetLlm(name: string := ""): (r: Result<LlmConfig>)
    ensures IsGroqName(name) ==> r == Ok(GroqConfig)
    ensures IsOpenAiName(name) ==> r == Ok(OpenAiConfig)
    ensures !IsGroqName(name) && !IsOpenAiName(name) ==>
              r == Err(Error(RuntimeError, "Failed to initialize LLM '" + name
                                           + "': Unsupported LLM name provided: '" + name + "'"))
  {
    var lowered := Lower(name);
    if lowered == "groq" then Ok(GroqConfig)
    else if lowered in ["openai", "gpt", ""] then Ok(OpenAiConfig)
    else
      Err(Error(RuntimeError, "Failed to initialize LLM '" + name
                              + "': Unsupported LLM name provided: '" + name + "'"))
  }

  /** The default argument selects OpenAI. */
  lemma DefaultSelectsOpenAi()
    ensures GetLlm() == Ok(OpenAiConfig)
  {
    assert Lower("") == "";
  }

  /** Every name either selects one of the two backends, with temperature zero, or fails
      with a `RuntimeError`; no name selects both. */
  lemma SelectionIsExclusive(name: string)
    ensures !(IsGroqName(name) && IsOpenAiName(name))
    ensures GetLlm(name).Ok? <==> IsGroqName(name) || IsOpenAiName(name)
    ensures GetLlm(name).Ok? ==> GetLlm(name).value.temperature == 0
    ensures GetLlm(name).Err? ==> GetLlm(name).error.kind == RuntimeError
  {
  }

  /** `name` spells `word` with any mix of letter cases. */
  predicate IsCaseVariant(name: string, word: string) {
    |name| == |word| && forall i :: 0 <= i < |word| ==> name[i] == word[i] || name[i] == UpperChar(word[i])
  }

  predicate AllLowerAscii(word: string) {
    forall i :: 0 <= i < |word| ==> 'a' <= word[i] <= 'z'
  }

  lemma {:induction false} CaseVariantLowers(name: string, word: string)
    requires AllLowerAscii(word) && IsCaseVariant(name, word)
    ensures Lower(name) == word
  {
    forall i | 0 <= i < |word| ensures Lower(name)[i] == word[i] {
      assert LowerChar(UpperChar(word[i])) == word[i];
    }
  }

  /** Any letter case of "groq" selects Groq; any letter case of "openai" or "gpt" selects OpenAI. */
  lemma CaseInsensitiveSelection(name: string)
    ensures IsCaseVariant(name, "groq") ==> GetLlm(name) == Ok(GroqConfig)
    ensures IsCaseVariant(name, "openai") || IsCaseVariant(name, "gpt") ==> GetLlm(name) == Ok(OpenAiConfig)
  {
    if IsCaseVariant(name, "groq") { CaseVariantLowers(name, "groq"); }
    if IsCaseVariant(name, "openai") { CaseVariantLowers(name, "openai"); }
    if IsCaseVariant(name, "gpt") { CaseVariantLowers(name, "gpt"); }
  }

  /** Names that differ only in letter case select the same backend, or fail alike. */
  lemma SelectionIgnoresCase(a: string, b: string)
    requires Lower(a) == Lower(b)
    ensures GetLlm(a).Ok? == GetLlm(b).Ok?
    ensures GetLlm(a).Ok? ==> GetLlm(a) == GetLlm(b)
  {
  }
}
