/**
 * The single-document web front end (app/app.py): input validation and
 * model-loading errors of huanik, read_doc with its uploaded_filename
 * global, export_txt and the language switch.
 */
module WebApp {
  import opened Text
  import opened Cleaning
  import opened FileNames
  import opened Endpoints
  import opened Completion

  // ---------------------------------------------------------------------
  // huanik: validation and model_load error mapping (app/app.py:46-62)
  // ---------------------------------------------------------------------

  const InvalidInputMessage := "请检查内容或选项是否正确输入。"

  /** The gr.Error text for an exception raised by model_load: 404 is checked before 401. */
  function LoadFailureMessage(e: string): (m: string)
    ensures EndsWith(m, e)
  {
    var m := if Contains(e, "404") || Contains(e, "Not Found") then
               "API端点配置错误 (404): 请检查基础URL和模型名称是否正确。错误详情: " + e
             else if Contains(e, "401") || Contains(e, "Unauthorized") then
               "API密钥无效 (401): 请检查API密钥是否正确。错误详情: " + e
             else "模型加载失败: " + e;
    assert m[|m| - |e|..] == e;
    m
  }

  /** An error naming both 404 and 401 is reported as an endpoint error. */
  lemma LoadFailureOrder(e: string)
    requires Contains(e, "404") && Contains(e, "401")
    ensures StartsWith(LoadFailureMessage(e), "API端点配置错误 (404)")
  {
  }

  /** The two errors model_load itself raises are reported as a plain load failure. */
  lemma CustomErrorsAreLoadFailures()
    ensures LoadFailureMessage(MissingBaseMessage) == "模型加载失败: " + MissingBaseMessage
    ensures LoadFailureMessage(MissingKeyMessage) == "模型加载失败: " + MissingKeyMessage
  {
    var b, k := MissingBaseMessage, MissingKeyMessage;
    assert '4' !in b && 'o' !in b && 'n' !in b;
    assert '4' !in k && 'o' !in k && 'n' !in k;
    NotContainsChar(b, "404", '4');
    NotContainsChar(b, "Not Found", 'o');
    NotContainsChar(b, "401", '4');
    NotContainsChar(b, "Unauthorized", 'n');
    NotContainsChar(k, "404", '4');
    NotContainsChar(k, "Not Found", 'o');
    NotContainsChar(k, "401", '4');
    NotContainsChar(k, "Unauthorized", 'n');
  }

  /**
   * huanik up to the translation call: reject an empty text or equal
   * languages before touching the model, then load the model, then remove
   * blank lines from the text. The result is the text handed to the translator.
   */
  method Huanik(patch: Patch, endpoint: string, baseUrl: string, model: string, apiKey: string,
                sourceLang: string, targetLang: string, sourceText: string,
                temperature: real, rpm: int, env: map<string, string>,
                construct: Client -> Option<string>)
    returns (r: Outcome<string>)
    modifies patch
    ensures sourceText == "" || sourceLang == targetLang ==>
              r == Fail(InvalidInputMessage) && patch.settings == old(patch.settings) &&
              patch.client == old(patch.client) && patch.lastCalled == old(patch.lastCalled)
    ensures sourceText != "" && sourceLang != targetLang ==>
              patch.settings == Settings(endpoint, rpm, model, temperature, false) &&
              patch.client == (var c := ClientFor(endpoint, baseUrl, apiKey, env, construct);
                               if c.Ok? then Some(c.value) else old(patch.client)) &&
              patch.lastCalled == old(patch.lastCalled) &&
              r == (var c := ClientFor(endpoint, baseUrl, apiKey, env, construct);
                    if c.Fail? then Fail(LoadFailureMessage(c.message)) else Outcome.Ok(RemoveBlankLines(sourceText)))
  {
    if sourceText == "" || sourceLang == targetLang {
      return Fail(InvalidInputMessage);
    }
    var loaded := patch.ModelLoad(endpoint, baseUrl, model, apiKey, temperature, rpm, false, env, construct);
    if loaded.Fail? {
      return Fail(LoadFailureMessage(loaded.message));
    }
    r := Outcome.Ok(RemoveBlankLines(sourceText));
  }

  // ---------------------------------------------------------------------
  // read_doc and export_txt (app/app.py:232-275, 355-384)
  // ---------------------------------------------------------------------

  /** What read_doc returns for a path, given whether it exists and what the extractors yield. */
  function ReadDocResult(path: string, present: bool, extract: (Extractor, string) -> string): Result<string> {
    if path == "" then Err(EmptyPath)
    else if !present then Err(Missing)
    else match ChooseExtractor(path)
      case Err(e) => Err(e)
      case Ok(x) => Result.Ok(RemoveBlankLines(extract(x, path)))
  }

  /**
   * read_doc accepts exactly an existing path with a whitelisted extension;
   * its text is the extractor's output with every blank line removed.
   */
  lemma ReadDocAccepts(path: string, present: bool, extract: (Extractor, string) -> string)
    ensures ReadDocResult(path, present, extract).Ok? <==>
            path != "" && present && '.' in Paths.Basename(path) && FileType(path) in Whitelist
    ensures ReadDocResult(path, present, extract).Ok? ==>
            var ls := Lines(ReadDocResult(path, present, extract).value);
            forall k | 0 <= k < |ls| - 1 :: !AllSpace(ls[k])
  {
    ChooseExtractorCases(path);
    if ReadDocResult(path, present, extract).Ok? {
      var x := ChooseExtractor(path).value;
      NoBlankLineAfterRemoval(extract(x, path));
    }
  }

  /** f"{n:06d}" for n >= 0 */
  function ZeroPad(s: string, width: nat): (r: string)
    ensures |r| == if |s| >= width then |s| else width
    ensures EndsWith(r, s)
    ensures forall i | 0 <= i < |r| - |s| :: r[i] == '0'
    decreases width - |s|
  {
    if |s| >= width then s
    else
      var r := ZeroPad(['0'] + s, width);
      assert r[|r| - |s|..] == (['0'] + s)[1..];
      r
  }

  /** What export_txt hands back: a hidden download box, the file it wrote, or the exception it let through. */
  datatype Export = Hidden | Written(name: string, text: string) | Propagated(error: string)

  class App {
    /** The global uploaded_filename: None until a document has been read. */
    var uploadedFilename: Option<string>

    constructor()
      ensures uploadedFilename == None
    {
      uploadedFilename := None;
    }

    /**
     * read_doc. The download name is recorded once the path exists, before
     * the extension is checked, so a rejected file still renames the next export.
     */
    method ReadDoc(path: string, present: bool, extract: (Extractor, string) -> string)
      returns (r: Result<string>)
      modifies this
      ensures r == ReadDocResult(path, present, extract)
      ensures uploadedFilename ==
              if path != "" && present then Some(EnglishName(NameWithoutExt(path))) else old(uploadedFilename)
    {
      if path == "" {
        return Err(EmptyPath);
      }
      if !present {
        return Err(Missing);
      }
      uploadedFilename := Some(EnglishName(NameWithoutExt(path)));
      var choice := ChooseExtractor(path);
      if choice.Err? {
        return Err(choice.error);
      }
      var content := extract(choice.value, path);
      r := Result.Ok(RemoveBlankLines(content));
    }

    /**
     * export_txt. txtCount is the number of .txt files already in the output
     * directory; dirError is what os.makedirs raised, outside the try, and
     * writeError what opening or writing the file raised, inside it.
     */
    method ExportTxt(translation: string, txtCount: nat, dirError: Option<string>, writeError: Option<string>)
      returns (r: Export)
      ensures translation == "" ==> r == Hidden
      ensures translation != "" && dirError.Some? ==> r == Propagated(dirError.value)
      ensures translation != "" && dirError.None? && writeError.Some? ==> r == Hidden
      ensures r.Written? <==> translation != "" && dirError.None? && writeError.None?
      ensures r.Written? ==> r.text == CleanSpec(translation)
      ensures r.Written? && uploadedFilename.Some? ==> r.name == uploadedFilename.value + ".txt"
      ensures r.Written? && uploadedFilename.None? ==>
              r.name == "translated_" + ZeroPad(NatToString(txtCount), 6) + ".txt"
    {
      if translation == "" {
        return Hidden;
      }
      var cleaned := CleanTranslationForNovel(translation);
      if dirError.Some? {
        return Propagated(dirError.value);
      }
      var name := if uploadedFilename.Some? then uploadedFilename.value + ".txt"
                  else "translated_" + ZeroPad(NatToString(txtCount), 6) + ".txt";
      if writeError.Some? {
        return Hidden;
      }
      r := Written(name, cleaned);
    }
  }

  // ---------------------------------------------------------------------
  // switch (app/app.py:387-401)
  // ---------------------------------------------------------------------

  /** The new (source language, source text, target language, output) after the swap button. */
  datatype Panel = Panel(sourceLang: string, sourceText: string, targetLang: string, output: string)

  function Switch(p: Panel): (q: Panel)
    ensures q.sourceLang == p.targetLang && q.targetLang == p.sourceLang
  {
    if p.output != "" then Panel(p.targetLang, p.output, p.sourceLang, p.sourceText)
    else Panel(p.targetLang, p.sourceText, p.sourceLang, "")
  }

  /**
   * Swapping twice restores the panel when there is an output and a source
   * text; with no output the text stays in the source box and the output stays empty.
   */
  lemma SwitchTwice(p: Panel)
    ensures p.output != "" && p.sourceText != "" ==> Switch(Switch(p)) == p
    ensures p.output == "" ==> Switch(Switch(p)) == p.(output := "")
  {
  }
}
