/** The program v2 event meta: which v1 importer an event uses, and the field width of its name. */
module ProgramMeta {
  /** `IMPORTER_CHOICES`: (stored key, label) pairs. */
  const ImporterChoices: seq<(string, string)> := [("default", "Default"), ("solmukohta2024", "Solmukohta 2024")]

  /** The two importer functions the property can return. */
  datatype Importer = ImportDefault | ImportSolmukohta2024

  /** `max(len(key) for key, _ in choices)`; 0 stands for the error `max` raises on no choices. */
  function MaxKeyLength(choices: seq<(string, string)>): (n: nat)
    ensures forall i :: 0 <= i < |choices| ==> |choices[i].0| <= n
    ensures choices != [] ==> exists i :: 0 <= i < |choices| && |choices[i].0| == n
  {
    if choices == [] then 0
    else
      var rest := MaxKeyLength(choices[1..]);
      assert forall i :: 0 < i < |choices| ==> choices[i] == choices[1..][i - 1];
      if |choices[0].0| >= rest then |choices[0].0|
      else
        assert choices[1..] != [];
        var i :| 0 <= i < |choices[1..]| && |choices[1..][i].0| == rest;
        assert choices[i + 1] == choices[1..][i];
        rest
  }

  /** `importer_name`'s `max_length`. */
  const ImporterNameMaxLength: nat := MaxKeyLength(ImporterChoices)

  /** The width is that of "solmukohta2024", 14 characters, so every choice key fits. */
  lemma ImporterNameWidth()
    ensures ImporterNameMaxLength == 14
    ensures forall i :: 0 <= i < |ImporterChoices| ==> |ImporterChoices[i].0| <= ImporterNameMaxLength
  {
    assert |ImporterChoices[0].0| == 7;
    assert |ImporterChoices[1].0| == 14;
  }

  /** The `importer` property: the Solmukohta 2024 importer for its own key, the default one for every other name. */
  function ImporterFor(importerName: string): (imp: Importer)
    ensures imp == ImportSolmukohta2024 <==> importerName == "solmukohta2024"
  {
    match importerName
    case "solmukohta2024" => ImportSolmukohta2024
    case _ => ImportDefault
  }

  /** `is_auto_importing_from_v1`: any non-blank importer name. */
  function IsAutoImportingFromV1(importerName: string): (b: bool)
    ensures b <==> |importerName| > 0
  {
    importerName != ""
  }

  /**
   * Every stored choice turns on auto-import, including "default", which
   * selects the same importer as the blank name; only the blank name leaves
   * auto-import off.
   */
  lemma ChoicesAutoImport()
    ensures forall i :: 0 <= i < |ImporterChoices| ==> IsAutoImportingFromV1(ImporterChoices[i].0)
    ensures ImporterFor("default") == ImporterFor("") == ImportDefault
    ensures !IsAutoImportingFromV1("")
  {
    assert ImporterChoices[0].0 != "" && ImporterChoices[1].0 != "";
    assert "default" != "solmukohta2024" && "" != "solmukohta2024";
  }
}
