/**
 * The admission filter of the ingest engine (`CandyStorage._wanted_file`).
 *
 * The two external classifiers (`file --brief` and `xdg-mime query filetype`)
 * are not run here: their outputs, already stripped of surrounding
 * whitespace, are the inputs of `WantedFile`.
 */
module Admission {

  /** What `_wanted_file` returns: `True`, the MIME string, or `False`. */
  datatype Verdict = MicrosoftDocument | InterestingMime(mime: string) | Rejected
  {
    /** Python truthiness of the returned value, which is how `put` tests it. */
    predicate Admitted() {
      match this
      case MicrosoftDocument => true
      case InterestingMime(m) => m != ""
      case Rejected => false
    }
  }

  /** Prefix of the `file --brief` output that admits a file at once. */
  const MicrosoftPrefix: string := "Microsoft "

  /** Allow-listed PDF and Microsoft Office types (`application/msword`, `application/vnd.ms-*`). */
  const LegacyOfficeMimetypes: set<string> := {
    "application/msword",
    "application/pdf",
    "application/vnd.ms-access",
    "application/vnd.ms-excel",
    "application/vnd.ms-excel.sheet.binary.macroEnabled.12",
    "application/vnd.ms-excel.sheet.macroEnabled.12",
    "application/vnd.ms-excel.template.macroEnabled.12",
    "application/vnd.ms-powerpoint",
    "application/vnd.ms-powerpoint.addin.macroEnabled.12",
    "application/vnd.ms-powerpoint.presentation.macroEnabled.12",
    "application/vnd.ms-powerpoint.slideshow.macroEnabled.12",
    "application/vnd.ms-powerpoint.template.macroEnabled.12",
    "application/vnd.ms-word.document.macroEnabled.12",
    "application/vnd.ms-word.template.macroEnabled.12"
  }

  /** Allow-listed OpenDocument and OpenOffice.org types. */
  const OpenDocumentMimetypes: set<string> := {
    "application/vnd.oasis.opendocument.chart",
    "application/vnd.oasis.opendocument.database",
    "application/vnd.oasis.opendocument.formula",
    "application/vnd.oasis.opendocument.graphics",
    "application/vnd.oasis.opendocument.graphics-template",
    "application/vnd.oasis.opendocument.image",
    "application/vnd.oasis.opendocument.presentation",
    "application/vnd.oasis.opendocument.presentation-template",
    "application/vnd.oasis.opendocument.spreadsheet",
    "application/vnd.oasis.opendocument.spreadsheet-template",
    "application/vnd.oasis.opendocument.text",
    "application/vnd.oasis.opendocument.text-master",
    "application/vnd.oasis.opendocument.text-template",
    "application/vnd.oasis.opendocument.text-web",
    "application/vnd.openofficeorg.extension"
  }

  /** Allow-listed Office Open XML types. */
  const OpenXmlMimetypes: set<string> := {
    "application/vnd.openxmlformats-officedocument.presentationml.presentation",
    "application/vnd.openxmlformats-officedocument.presentationml.slideshow",
    "application/vnd.openxmlformats-officedocument.presentationml.template",
    "application/vnd.openxmlformats-officedocument.spreadsheetml.sheet",
    "application/vnd.openxmlformats-officedocument.spreadsheetml.template",
    "application/vnd.openxmlformats-officedocument.wordprocessingml.document",
    "application/vnd.openxmlformats-officedocument.wordprocessingml.template"
  }

  /** The Excel add-in type, which the last entry of the source's list evidently means. */
  const ExcelAddin: string := "application/vnd.ms-excel.addin.macroEnabled.12"

  /** The last entry of the source's list, as misspelt there. */
  const MisspeltExcelAddin: string := "pplication/vnd.ms-excel.addin.macroEnabled.12"

  /** The allow-list `INTERESTING_MIMETYPES` exactly as the source spells it (37 entries). */
  const InterestingMimetypes: set<string> :=
    LegacyOfficeMimetypes + OpenDocumentMimetypes + OpenXmlMimetypes + {MisspeltExcelAddin}

  /** The allow-list with its misspelt entry corrected. */
  const IntendedMimetypes: set<string> :=
    LegacyOfficeMimetypes + OpenDocumentMimetypes + OpenXmlMimetypes + {ExcelAddin}

  /**
   * The admission decision over the two classifier outputs and an allow-list.
   * The MIME classifier's output is looked at only when the coarse one does
   * not start with `MicrosoftPrefix`.
   */
  function WantedFile(mimetypes: set<string>, fileType: string, xdgMime: string): (v: Verdict)
    ensures v.MicrosoftDocument? <==> MicrosoftPrefix <= fileType
    ensures v.InterestingMime? <==> !(MicrosoftPrefix <= fileType) && xdgMime in mimetypes
    ensures v.InterestingMime? ==> v.mime == xdgMime
  {
    if MicrosoftPrefix <= fileType then MicrosoftDocument
    else if xdgMime in mimetypes then InterestingMime(xdgMime)
    else Rejected
  }

  /** A `file` output with the Microsoft prefix decides alone: the MIME output does not matter. */
  lemma MicrosoftSkipsMimeClassifier(mimetypes: set<string>, fileType: string, xdgMime1: string, xdgMime2: string)
    requires MicrosoftPrefix <= fileType
    ensures WantedFile(mimetypes, fileType, xdgMime1) == WantedFile(mimetypes, fileType, xdgMime2) == MicrosoftDocument
  {
  }

  /** `put` goes on exactly for a Microsoft file or a non-empty allow-listed MIME type. */
  lemma AdmittedIff(mimetypes: set<string>, fileType: string, xdgMime: string)
    ensures WantedFile(mimetypes, fileType, xdgMime).Admitted()
        <==> MicrosoftPrefix <= fileType || (xdgMime in mimetypes && xdgMime != "")
  {
  }

  /** Past the Microsoft check, a file is admitted exactly when its MIME type is on the source's list. */
  lemma AllowListAdmits(fileType: string, xdgMime: string)
    requires !(MicrosoftPrefix <= fileType)
    ensures WantedFile(InterestingMimetypes, fileType, xdgMime).Admitted() <==> xdgMime in InterestingMimetypes
  {
    NoEmptyEntry();
  }

  /** A PDF is admitted and reported by its MIME type; plain text is rejected. */
  lemma PdfAdmittedTextRejected(fileType: string)
    requires !(MicrosoftPrefix <= fileType)
    ensures WantedFile(InterestingMimetypes, fileType, "application/pdf") == InterestingMime("application/pdf")
    ensures WantedFile(InterestingMimetypes, fileType, "text/plain") == Rejected
  {
    LegacyOfficeFacts();
    OpenDocumentFacts();
    OpenXmlFacts();
    assert "text/plain" != MisspeltExcelAddin by { assert |"text/plain"| != |MisspeltExcelAddin|; }
  }

  // Membership facts, one family at a time, so that no proof faces the whole list at once.

  lemma LegacyOfficeFacts()
    ensures "application/pdf" in LegacyOfficeMimetypes
    ensures "" !in LegacyOfficeMimetypes && "text/plain" !in LegacyOfficeMimetypes
    ensures ExcelAddin !in LegacyOfficeMimetypes && MisspeltExcelAddin !in LegacyOfficeMimetypes
  {
  }

  lemma OpenDocumentFacts()
    ensures "" !in OpenDocumentMimetypes && "text/plain" !in OpenDocumentMimetypes
    ensures ExcelAddin !in OpenDocumentMimetypes && MisspeltExcelAddin !in OpenDocumentMimetypes
  {
  }

  lemma OpenXmlFacts()
    ensures "" !in OpenXmlMimetypes && "text/plain" !in OpenXmlMimetypes
    ensures ExcelAddin !in OpenXmlMimetypes && MisspeltExcelAddin !in OpenXmlMimetypes
  {
  }

  /** The two spellings of the add-in type differ. */
  lemma SpellingsDiffer()
    ensures MisspeltExcelAddin != ExcelAddin
  {
    assert |ExcelAddin| != |MisspeltExcelAddin|;
  }

  /** As written, the Excel add-in type is not on the list, so a file of that type is rejected. */
  lemma MisspeltEntryRejectsAddin(fileType: string)
    requires !(MicrosoftPrefix <= fileType)
    ensures MisspeltExcelAddin in InterestingMimetypes && ExcelAddin !in InterestingMimetypes
    ensures WantedFile(InterestingMimetypes, fileType, ExcelAddin) == Rejected
  {
    LegacyOfficeFacts();
    OpenDocumentFacts();
    OpenXmlFacts();
    SpellingsDiffer();
  }

  /** Replacing one entry of a list by another, absent one keeps its size. */
  lemma ReplaceEntry(families: set<string>, was: string, now: string)
    requires was !in families && now !in families && was != now
    ensures families + {now} == families + {was} - {was} + {now}
    ensures |families + {now}| == |families + {was}|
  {
  }

  /** The corrected list differs from the source's in that one entry only. */
  lemma IntendedReplacesOneEntry()
    ensures IntendedMimetypes == InterestingMimetypes - {MisspeltExcelAddin} + {ExcelAddin}
    ensures |IntendedMimetypes| == |InterestingMimetypes|
  {
    LegacyOfficeFacts();
    OpenDocumentFacts();
    OpenXmlFacts();
    SpellingsDiffer();
    ReplaceEntry(LegacyOfficeMimetypes + OpenDocumentMimetypes + OpenXmlMimetypes, MisspeltExcelAddin, ExcelAddin);
  }

  /** No list entry is the empty string, which Python would read as false. */
  lemma NoEmptyEntry()
    ensures "" !in InterestingMimetypes && "" !in IntendedMimetypes
  {
    LegacyOfficeFacts();
    OpenDocumentFacts();
    OpenXmlFacts();
  }

  /** With the corrected list, every file it lists, the Excel add-in type included, is admitted. */
  lemma IntendedAcceptsAddin(fileType: string, xdgMime: string)
    requires !(MicrosoftPrefix <= fileType)
    ensures WantedFile(IntendedMimetypes, fileType, ExcelAddin) == InterestingMime(ExcelAddin)
    ensures xdgMime in IntendedMimetypes <==> WantedFile(IntendedMimetypes, fileType, xdgMime).Admitted()
  {
    NoEmptyEntry();
  }
}
