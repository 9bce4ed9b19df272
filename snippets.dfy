/** Example requests for one model: a curl command, a Python client call
    and a JavaScript client call (`generateSnippets`). Each template is
    kept as its list of parts, fixed text alternating with the
    interpolated values, and the snippet is their concatenation. */
module Snippets {
  import opened Text
  import opened Catalog

  datatype Snippets = Snippets(curl: string, python: string, javascript: string)

  /** The sample prompt every snippet sends. */
  const Prompt := "Hello, world!"

  /** The parts of a template literal joined in order. */
  function Concat(parts: seq<string>): string
  {
    if parts == [] then "" else parts[0] + Concat(parts[1..])
  }

  /** Every part of a template occurs in the filled-in text. */
  lemma {:induction false} ConcatIncludesPart(parts: seq<string>, k: nat)
    requires k < |parts|
    ensures Includes(Concat(parts), parts[k])
    decreases k
  {
    if k == 0 {
      IncludesAppend(parts[0], Concat(parts[1..]), parts[0]);
    } else {
      ConcatIncludesPart(parts[1..], k - 1);
      IncludesPrepend(parts[0], Concat(parts[1..]), parts[k]);
    }
  }

  /** The filled-in text starts with the first two parts. */
  lemma ConcatStartsWith(parts: seq<string>)
    requires |parts| >= 2
    ensures var head := parts[0] + parts[1];
      |Concat(parts)| >= |head| && Concat(parts)[..|head|] == head
  {
    assert Concat(parts) == parts[0] + (parts[1] + Concat(parts[2..]));
  }

  /** The provider's API host, `api.<provider in lower case>.com`. */
  function ApiHost(provider: string): string
  {
    "api." + ToLower(provider) + ".com"
  }

  function CurlUrl(provider: string): string
  {
    "https://" + ApiHost(provider) + "/v1/chat/completions"
  }

  function CurlModelField(apiString: string): string
  {
    "\"model\": \"" + apiString + "\""
  }

  function PythonImport(provider: string): string
  {
    "from " + ToLower(provider) + " import " + provider + "Client"
  }

  function PythonApiKey(provider: string): string
  {
    "os.environ.get(\"" + ToUpper(provider) + "_API_KEY\")"
  }

  function PythonModelArg(apiString: string): string
  {
    "model=\"" + apiString + "\""
  }

  function JavaScriptImport(provider: string): string
  {
    "import { " + provider + " } from \"" + ToLower(provider) + "\";"
  }

  function JavaScriptModelProp(apiString: string): string
  {
    "model: \"" + apiString + "\""
  }

  function CurlTemplate(provider: string, apiString: string): seq<string>
  {
    [ "curl ", CurlUrl(provider),
      " \\\n" +
      "  -H \"Content-Type: application/json\" \\\n" +
      "  -H \"Authorization: Bearer $API_KEY\" \\\n" +
      "  -d '{\n    ",
      CurlModelField(apiString),
      ",\n    \"messages\": [\n      {\n        \"role\": \"user\",\n" +
      "        \"content\": \"",
      Prompt,
      "\"\n      }\n    ]\n  }'" ]
  }

  function PythonTemplate(provider: string, apiString: string): seq<string>
  {
    [ "import os\n", PythonImport(provider),
      "\n\nclient = " + provider + "Client(\n    api_key=",
      PythonApiKey(provider),
      ",\n)\n\n" +
      "chat_completion = client.chat.completions.create(\n    messages=[\n        {\n" +
      "            \"role\": \"user\",\n            \"content\": \"",
      Prompt,
      "\",\n        }\n    ],\n    ",
      PythonModelArg(apiString),
      ",\n)\n\nprint(chat_completion.choices[0].message.content)" ]
  }

  function JavaScriptTemplate(provider: string, apiString: string): seq<string>
  {
    [ JavaScriptImport(provider),
      "\n\nconst client = new " + provider + "();\n\n" +
      "async function main() {\n" +
      "  const completion = await client.chat.completions.create({\n" +
      "    messages: [{ role: \"user\", content: \"",
      Prompt,
      "\" }],\n    ",
      JavaScriptModelProp(apiString),
      ",\n  });\n\n" +
      "  console.log(completion.choices[0].message.content);\n}\n\nmain();" ]
  }

  /** The three snippets, each filled in from the provider and the API
      string alone. */
  function Curl(provider: string, apiString: string): string
  {
    Concat(CurlTemplate(provider, apiString))
  }

  function Python(provider: string, apiString: string): string
  {
    Concat(PythonTemplate(provider, apiString))
  }

  function JavaScript(provider: string, apiString: string): string
  {
    Concat(JavaScriptTemplate(provider, apiString))
  }

  /** `generateSnippets(model)`: the three templates filled in with the
      model's provider and API string. Each names the model by its API
      string and sends the sample prompt, and the curl command calls the
      provider's API host. */
  function GenerateSnippets(m: Model): (s: Snippets)
    ensures Includes(s.curl, ApiHost(m.provider))
    ensures Includes(s.curl, CurlModelField(m.apiString))
    ensures Includes(s.python, PythonModelArg(m.apiString))
    ensures Includes(s.javascript, JavaScriptModelProp(m.apiString))
    ensures Includes(s.curl, Prompt) && Includes(s.python, Prompt) && Includes(s.javascript, Prompt)
  {
    CurlSnippet(m.provider, m.apiString);
    PythonSnippet(m.provider, m.apiString);
    JavaScriptSnippet(m.provider, m.apiString);
    Snippets(
      curl := Curl(m.provider, m.apiString),
      python := Python(m.provider, m.apiString),
      javascript := JavaScript(m.provider, m.apiString))
  }

  /** The curl command starts by calling the provider's chat completions
      URL, on the host `api.<provider in lower case>.com`, names the model by
      its API string and sends the sample prompt. */
  lemma CurlSnippet(provider: string, apiString: string)
    ensures var curl := Curl(provider, apiString);
      && |curl| >= 5 + |CurlUrl(provider)|
      && curl[..5 + |CurlUrl(provider)|] == "curl " + CurlUrl(provider)
      && Includes(curl, ApiHost(provider))
      && Includes(curl, CurlModelField(apiString))
      && Includes(curl, Prompt)
  {
    var parts := CurlTemplate(provider, apiString);
    ConcatStartsWith(parts);
    ConcatIncludesPart(parts, 1);
    IncludesInfix("https://", ApiHost(provider), "/v1/chat/completions");
    IncludesTransitive(Concat(parts), parts[1], ApiHost(provider));
    ConcatIncludesPart(parts, 3);
    ConcatIncludesPart(parts, 5);
  }

  /** The Python snippet imports `<provider>Client` from the lower-cased
      provider, reads the upper-cased `<PROVIDER>_API_KEY` variable, passes
      the API string as `model` and sends the sample prompt. */
  lemma PythonSnippet(provider: string, apiString: string)
    ensures var python := Python(provider, apiString);
      && Includes(python, PythonImport(provider))
      && Includes(python, PythonApiKey(provider))
      && Includes(python, PythonModelArg(apiString))
      && Includes(python, Prompt)
  {
    var parts := PythonTemplate(provider, apiString);
    ConcatIncludesPart(parts, 1);
    ConcatIncludesPart(parts, 3);
    ConcatIncludesPart(parts, 5);
    ConcatIncludesPart(parts, 7);
  }

  /** The JavaScript snippet starts by importing `{ <provider> }` from the
      lower-cased provider, passes the API string as `model` and sends the
      sample prompt. */
  lemma JavaScriptSnippet(provider: string, apiString: string)
    ensures var js := JavaScript(provider, apiString);
      && |js| >= |JavaScriptImport(provider)|
      && js[..|JavaScriptImport(provider)|] == JavaScriptImport(provider)
      && Includes(js, JavaScriptModelProp(apiString))
      && Includes(js, Prompt)
  {
    var parts := JavaScriptTemplate(provider, apiString);
    assert Concat(parts) == parts[0] + Concat(parts[1..]);
    ConcatIncludesPart(parts, 2);
    ConcatIncludesPart(parts, 4);
  }

  /** The snippets depend on nothing but the provider and the API string. */
  lemma SnippetsDependOnProviderAndApi(m1: Model, m2: Model)
    requires m1.provider == m2.provider && m1.apiString == m2.apiString
    ensures GenerateSnippets(m1) == GenerateSnippets(m2)
  {
  }

  /** The API host of provider "OpenAI". */
  lemma OpenAiHost()
    ensures ApiHost("OpenAI") == "api.openai.com"
  {
    assert ToLower("OpenAI") == "openai";
    var host := ApiHost("OpenAI");
    forall k | 0 <= k < 14
      ensures host[k] == "api.openai.com"[k]
    {
    }
  }

  /** The worked example for provider "OpenAI" and API string "gpt-4o":
      the curl command calls api.openai.com and names the model gpt-4o. */
  lemma OpenAiCurlExample(provider: string, apiString: string)
    requires provider == "OpenAI" && apiString == "gpt-4o"
    ensures Includes(Curl(provider, apiString), "api.openai.com")
    ensures Includes(Curl(provider, apiString), "\"model\": \"gpt-4o\"")
  {
    CurlSnippet(provider, apiString);
    OpenAiHost();
    assert CurlModelField(apiString) == "\"model\": \"gpt-4o\"";
  }
}
