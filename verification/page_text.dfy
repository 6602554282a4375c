/**
  The issuer page's strings under the translation hook: the environment the
  hook gives the page, the English keys the page passes to `t`, and what the
  two translation tables guarantee about them.
 */
module PageText {
  import Translation
  import Issuer
  import Carousel

  /**
    The environment of a page whose hook has settled on locale `l`: English
    shows every key as written, and no locale turns a non-empty key into
    an empty string.
   */
  function HookEnv(l: Translation.Locale, origin: string): (env: Issuer.Env)
    ensures env.origin == origin
    ensures forall key :: env.t(key) == Translation.Translate(l, key)
    ensures l == Translation.En ==> forall key :: env.t(key) == key
    ensures forall key :: key != "" ==> env.t(key) != ""
  {
    Issuer.Env(key => Translation.Translate(l, key), origin)
  }

  /** Under the hook, every refusal of the link guard is a non-empty message. */
  lemma RefusalNonEmpty(l: Translation.Locale, pwd: string)
    ensures Issuer.LinkGuard(HookEnv(l, "").t, pwd).Some? ==> Issuer.LinkGuard(HookEnv(l, "").t, pwd).value != ""
  {
  }

  /** The two paths report failure with different messages in every locale. */
  lemma FailureMessagesDiffer(l: Translation.Locale)
    ensures Translation.Translate(l, Issuer.GenerateFailedMessage) != Translation.Translate(l, Issuer.LinkFailedMessage)
  {
    ErrorKeysInSections();
    match l
    case En =>
    case PtBR => Translation.PtBRErrorTranslationsDistinct(Issuer.GenerateFailedMessage, Issuer.LinkFailedMessage);
    case Es => Translation.EsErrorTranslationsDistinct(Issuer.GenerateFailedMessage, Issuer.LinkFailedMessage);
  }

  // The English keys the page passes to `t`, grouped by the table section that holds them.

  const PageAppKeys: set<string> := {"Secure Password Share"}

  const PageMainKeys: set<string> := {
    "Enter the password you want to share", "Characters",
    "Need help generating a secure password?",
    "Click the \"Generate password\" button or change the options", "Generate password",
    "Hide options", "Options", "Size:", "Include symbols:", "Include numbers:",
    "How many days should it be available?", "day", "days",
    "What is the maximum number of views possible?", "view", "views", "Generate link",
    "This password will be available until the first occurs:", "or"
  }

  const PageShareKeys: set<string> := {
    "Use this link to share the password:", "Copied", "Copy", "Link copied to clipboard!",
    "Create new password"
  }

  const PageErrorKeys: set<string> := {
    Issuer.TooShortMessage, Issuer.TooLongMessage, Issuer.BlankMessage, Issuer.GenerateFailedMessage,
    Issuer.LinkFailedMessage
  }

  /** The carousel's keys, as a set. */
  const InfoKeys: set<string> := set i | 0 <= i < |Carousel.InfoMessageKeys| :: Carousel.InfoMessageKeys[i]

  /** A subset of one section's keys is a subset of the merged table's keys. */
  lemma SubsetOfMerge(s: set<string>, a: set<string>, b: set<string>, c: set<string>,
                      d: set<string>, e: set<string>, f: set<string>, t: set<string>)
    requires s <= a || s <= b || s <= c || s <= d || s <= e || s <= f
    requires t == a + b + c + d + e + f
    ensures s <= t
  {
  }

  // Each group of page keys lies in the matching section of both tables ...
  // The lemmas go group by group and table by table, not all at once, so that
  // each proof sees one literal section at a time; they are alike on purpose.

  lemma AppKeysInSections()
    ensures PageAppKeys <= Translation.PtBRApp.Keys && PageAppKeys <= Translation.EsApp.Keys
  {
  }

  lemma MainKeysInSections()
    ensures PageMainKeys <= Translation.PtBRMain.Keys && PageMainKeys <= Translation.EsMain.Keys
  {
  }

  lemma ShareKeysInSections()
    ensures PageShareKeys <= Translation.PtBRShare.Keys && PageShareKeys <= Translation.EsShare.Keys
  {
  }

  lemma ErrorKeysInSections()
    ensures PageErrorKeys <= Translation.PtBRErrors.Keys && PageErrorKeys <= Translation.EsErrors.Keys
  {
  }

  lemma InfoKeysInSections()
    ensures InfoKeys <= Translation.PtBRSecurity.Keys && InfoKeys <= Translation.EsSecurity.Keys
  {
  }

  // ... hence in both whole tables.

  lemma AppKeysInPtBRTable()
    ensures PageAppKeys <= Translation.PtBRTable.Keys
  {
    AppKeysInSections();
    Translation.PtBRKeysBySection();
    SubsetOfMerge(PageAppKeys, Translation.PtBRApp.Keys, Translation.PtBRMain.Keys, Translation.PtBRShare.Keys,
      Translation.PtBRView.Keys, Translation.PtBRSecurity.Keys, Translation.PtBRErrors.Keys, Translation.PtBRTable.Keys);
  }

  lemma MainKeysInPtBRTable()
    ensures PageMainKeys <= Translation.PtBRTable.Keys
  {
    MainKeysInSections();
    Translation.PtBRKeysBySection();
    SubsetOfMerge(PageMainKeys, Translation.PtBRApp.Keys, Translation.PtBRMain.Keys, Translation.PtBRShare.Keys,
      Translation.PtBRView.Keys, Translation.PtBRSecurity.Keys, Translation.PtBRErrors.Keys, Translation.PtBRTable.Keys);
  }

  lemma ShareKeysInPtBRTable()
    ensures PageShareKeys <= Translation.PtBRTable.Keys
  {
    ShareKeysInSections();
    Translation.PtBRKeysBySection();
    SubsetOfMerge(PageShareKeys, Translation.PtBRApp.Keys, Translation.PtBRMain.Keys, Translation.PtBRShare.Keys,
      Translation.PtBRView.Keys, Translation.PtBRSecurity.Keys, Translation.PtBRErrors.Keys, Translation.PtBRTable.Keys);
  }

  lemma ErrorKeysInPtBRTable()
    ensures PageErrorKeys <= Translation.PtBRTable.Keys
  {
    ErrorKeysInSections();
    Translation.PtBRKeysBySection();
    SubsetOfMerge(PageErrorKeys, Translation.PtBRApp.Keys, Translation.PtBRMain.Keys, Translation.PtBRShare.Keys,
      Translation.PtBRView.Keys, Translation.PtBRSecurity.Keys, Translation.PtBRErrors.Keys, Translation.PtBRTable.Keys);
  }

  lemma InfoKeysInPtBRTable()
    ensures InfoKeys <= Translation.PtBRTable.Keys
  {
    InfoKeysInSections();
    Translation.PtBRKeysBySection();
    SubsetOfMerge(InfoKeys, Translation.PtBRApp.Keys, Translation.PtBRMain.Keys, Translation.PtBRShare.Keys,
      Translation.PtBRView.Keys, Translation.PtBRSecurity.Keys, Translation.PtBRErrors.Keys, Translation.PtBRTable.Keys);
  }

  lemma AppKeysInEsTable()
    ensures PageAppKeys <= Translation.EsTable.Keys
  {
    AppKeysInSections();
    Translation.EsKeysBySection();
    SubsetOfMerge(PageAppKeys, Translation.EsApp.Keys, Translation.EsMain.Keys, Translation.EsShare.Keys,
      Translation.EsView.Keys, Translation.EsSecurity.Keys, Translation.EsErrors.Keys, Translation.EsTable.Keys);
  }

  lemma MainKeysInEsTable()
    ensures PageMainKeys <= Translation.EsTable.Keys
  {
    MainKeysInSections();
    Translation.EsKeysBySection();
    SubsetOfMerge(PageMainKeys, Translation.EsApp.Keys, Translation.EsMain.Keys, Translation.EsShare.Keys,
      Translation.EsView.Keys, Translation.EsSecurity.Keys, Translation.EsErrors.Keys, Translation.EsTable.Keys);
  }

  lemma ShareKeysInEsTable()
    ensures PageShareKeys <= Translation.EsTable.Keys
  {
    ShareKeysInSections();
    Translation.EsKeysBySection();
    SubsetOfMerge(PageShareKeys, Translation.EsApp.Keys, Translation.EsMain.Keys, Translation.EsShare.Keys,
      Translation.EsView.Keys, Translation.EsSecurity.Keys, Translation.EsErrors.Keys, Translation.EsTable.Keys);
  }

  lemma ErrorKeysInEsTable()
    ensures PageErrorKeys <= Translation.EsTable.Keys
  {
    ErrorKeysInSections();
    Translation.EsKeysBySection();
    SubsetOfMerge(PageErrorKeys, Translation.EsApp.Keys, Translation.EsMain.Keys, Translation.EsShare.Keys,
      Translation.EsView.Keys, Translation.EsSecurity.Keys, Translation.EsErrors.Keys, Translation.EsTable.Keys);
  }

  lemma InfoKeysInEsTable()
    ensures InfoKeys <= Translation.EsTable.Keys
  {
    InfoKeysInSections();
    Translation.EsKeysBySection();
    SubsetOfMerge(InfoKeys, Translation.EsApp.Keys, Translation.EsMain.Keys, Translation.EsShare.Keys,
      Translation.EsView.Keys, Translation.EsSecurity.Keys, Translation.EsErrors.Keys, Translation.EsTable.Keys);
  }

  /** Every English key the page passes to `t`. */
  const PageKeys: set<string> := PageAppKeys + PageMainKeys + PageShareKeys + PageErrorKeys + InfoKeys

  /** Five subsets of a set have their union inside it too. */
  lemma UnionOfSubsets(a: set<string>, b: set<string>, c: set<string>, d: set<string>, e: set<string>, t: set<string>)
    requires a <= t && b <= t && c <= t && d <= t && e <= t
    ensures a + b + c + d + e <= t
  {
  }

  /** No string of the page falls back to English in a translated locale. */
  lemma PageKeysTranslated()
    ensures PageKeys <= Translation.PtBRTable.Keys
    ensures PageKeys <= Translation.EsTable.Keys
  {
    AppKeysInPtBRTable();
    MainKeysInPtBRTable();
    ShareKeysInPtBRTable();
    ErrorKeysInPtBRTable();
    InfoKeysInPtBRTable();
    UnionOfSubsets(PageAppKeys, PageMainKeys, PageShareKeys, PageErrorKeys, InfoKeys, Translation.PtBRTable.Keys);
    AppKeysInEsTable();
    MainKeysInEsTable();
    ShareKeysInEsTable();
    ErrorKeysInEsTable();
    InfoKeysInEsTable();
    UnionOfSubsets(PageAppKeys, PageMainKeys, PageShareKeys, PageErrorKeys, InfoKeys, Translation.EsTable.Keys);
  }

  // ... and none of them names a member of `Object.prototype`.

  lemma AppKeysNotInherited()
    ensures PageAppKeys !! Translation.ObjectPrototypeNames
  {
  }

  lemma MainKeysNotInherited()
    ensures PageMainKeys !! Translation.ObjectPrototypeNames
  {
  }

  lemma ShareKeysNotInherited()
    ensures PageShareKeys !! Translation.ObjectPrototypeNames
  {
  }

  lemma ErrorKeysNotInherited()
    ensures PageErrorKeys !! Translation.ObjectPrototypeNames
  {
  }

  lemma InfoKeysNotInherited()
    ensures InfoKeys !! Translation.ObjectPrototypeNames
  {
  }

  /**
    On every key the page passes to `t`, the source's lookup yields exactly
    the string the model's lookup does, whatever the table.
   */
  lemma PageLookupsAsModelled(key: string)
    requires key in PageKeys
    ensures forall table :: Translation.SourceLookup(table, key) == Translation.Str(Translation.Lookup(table, key))
  {
    AppKeysNotInherited();
    MainKeysNotInherited();
    ShareKeysNotInherited();
    ErrorKeysNotInherited();
    InfoKeysNotInherited();
  }
}
