/**
  The locale engine of the page: detection of the active locale from the
  browser's reported language, the two translation tables, and the lookup
  `t(key)` with its fallback to the key. English strings are the keys, so
  English needs no table.
 */
module Translation {
  import opened Wrappers
  import JsString

  /** The three locales the engine can select. */
  datatype Locale = En | PtBR | Es {

    /** The locale tag the hook stores and returns. */
    function Code(): string {
      match this
      case En => "en"
      case PtBR => "pt-BR"
      case Es => "es"
    }
  }

  /** The locale in effect before detection has run (the hook's initial state). */
  const Initial: Locale := En

  /**
    Locale detection. `navLanguage` is the browser's `navigator.language`
    (None when undefined); a missing or empty language reads as "en".
    The tests are case-sensitive prefix tests, "pt" before "es".
   */
  function Detect(navLanguage: Option<string>): (l: Locale)
    ensures l == PtBR <==> navLanguage.Some? && JsString.StartsWith(navLanguage.value, "pt")
    ensures l == Es <==>
      navLanguage.Some? && !JsString.StartsWith(navLanguage.value, "pt")
      && JsString.StartsWith(navLanguage.value, "es")
  {
    var userLocale := if navLanguage.None? || navLanguage.value == "" then "en" else navLanguage.value;
    assert "en"[..2][0] == 'e' && "en"[..2][1] == 'n';
    if JsString.StartsWith(userLocale, "pt") then PtBR
    else if JsString.StartsWith(userLocale, "es") then Es
    else En
  }

  /** Brazilian Portuguese, app name section. */
  const PtBRApp: map<string, string> :=
    map[
      "Secure Password Share" := "Compartilhamento Seguro de Senhas"
    ]

  /** Brazilian Portuguese, main page section. */
  const PtBRMain: map<string, string> :=
    map[
      "Password Generator" := "Gerador de Senhas",
      "Enter the password you want to share" := "Digite a senha que vai compartilhar",
      "Characters" := "Caracteres",
      "Need help generating a secure password?" := "Precisa de uma ajuda para gerar uma senha segura?",
      "Click the \"Generate password\" button or change the options" := "Clique no botão \"Gerar senha\" ou altere as opções",
      "Generate password" := "Gerar senha",
      "Generating..." := "Gerando...",
      "Generate link" := "Gerar link",
      "Generating link..." := "Gerando link...",
      "Options" := "Opções",
      "Hide options" := "Ocultar opções",
      "Size:" := "Tamanho:",
      "Include symbols:" := "Incluir símbolos:",
      "Include numbers:" := "Incluir números:",
      "How many days should it be available?" := "Por quantos dias deve ficar disponível?",
      "day" := "dia",
      "days" := "dias",
      "What is the maximum number of views possible?" := "Qual o máximo de visualizações possíveis?",
      "view" := "visualização",
      "views" := "visualizações",
      "This password will be available until the first occurs:" := "Esta senha ficará disponível ao que ocorrer primeiro:",
      "or" := "ou"
    ]

  /** Brazilian Portuguese, share page section. */
  const PtBRShare: map<string, string> :=
    map[
      "Use this link to share the password:" := "Use este link para compartilhar a senha:",
      "Copy" := "Copiar",
      "Copied" := "Copiado",
      "Link copied to clipboard!" := "Link copiado para a área de transferência!",
      "Create new password" := "Criar nova senha"
    ]

  /** Brazilian Portuguese, view page section. */
  const PtBRView: map<string, string> :=
    map[
      "This is the password that was shared with you" := "Esta é a senha que foi compartilhada com você",
      "Click on the password to view it or on the button to copy" := "Clique na senha para visualizá-la ou no botão para copiar",
      "Loading..." := "Carregando...",
      "This password will be available until" := "Esta senha estará disponível até",
      "or for" := "ou por mais",
      "more views." := "visualizações.",
      "Created on:" := "Criada em:",
      "If you want to revoke access to this password, click" := "Caso queira revogar o acesso a esta senha, clique em",
      "Revoke" := "Revogar",
      "Password Unavailable" := "Senha Indisponivel"
    ]

  /** Brazilian Portuguese, security messages section. */
  const PtBRSecurity: map<string, string> :=
    map[
      "All passwords are encrypted before storage and are only available to those with the secret link." := "Todas as senhas são criptografadas antes do armazenamento e estão disponíveis apenas para aqueles com o link secreto.",
      "Once expired, encrypted passwords are deleted from the database." := "Uma vez expiradas, as senhas criptografadas são excluídas do banco de dados.",
      "The system ensures maximum security through end-to-end encryption." := "O sistema garante máxima segurança através de criptografia de ponta a ponta.",
      "Your data is protected with the highest digital security standards." := "Seus dados são protegidos com os mais altos padrões de segurança digital.",
      "Passwords are generated using secure and random algorithms." := "As senhas são geradas usando algoritmos seguros e aleatórios.",
      "No personal information is stored on our servers." := "Nenhuma informação pessoal é armazenada em nossos servidores."
    ]

  /** Brazilian Portuguese, error messages section. */
  const PtBRErrors: map<string, string> :=
    map[
      "The password must be at least 4 characters." := "A senha deve ter pelo menos 4 caracteres.",
      "The password cannot be more than 128 characters." := "A senha não pode ter mais de 128 caracteres.",
      "Please enter a password before generating the link." := "Por favor, digite uma senha antes de gerar o link.",
      "Error generating password. Try again." := "Erro ao gerar senha. Tente novamente.",
      "Error generating link. Try again." := "Erro ao gerar link. Tente novamente."
    ]

  /** Spanish, app name section. */
  const EsApp: map<string, string> :=
    map[
      "Secure Password Share" := "Compartir Contraseñas Seguras"
    ]

  /** Spanish, main page section. */
  const EsMain: map<string, string> :=
    map[
      "Password Generator" := "Generador de Contraseñas",
      "Enter the password you want to share" := "Ingresa la contraseña que quieres compartir",
      "Characters" := "Caracteres",
      "Need help generating a secure password?" := "¿Necesitas ayuda para generar una contraseña segura?",
      "Click the \"Generate password\" button or change the options" := "Haz clic en el botón \"Generar contraseña\" o cambia las opciones",
      "Generate password" := "Generar contraseña",
      "Generating..." := "Generando...",
      "Generate link" := "Generar enlace",
      "Generating link..." := "Generando enlace...",
      "Options" := "Opciones",
      "Hide options" := "Ocultar opciones",
      "Size:" := "Tamaño:",
      "Include symbols:" := "Incluir símbolos:",
      "Include numbers:" := "Incluir números:",
      "How many days should it be available?" := "¿Por cuántos días debe estar disponible?",
      "day" := "día",
      "days" := "días",
      "What is the maximum number of views possible?" := "¿Cuál es el número máximo de visualizaciones posibles?",
      "view" := "visualización",
      "views" := "visualizaciones",
      "This password will be available until the first occurs:" := "Esta contraseña estará disponible hasta que ocurra lo primero:",
      "or" := "o"
    ]

  /** Spanish, share page section. */
  const EsShare: map<string, string> :=
    map[
      "Use this link to share the password:" := "Usa este enlace para compartir la contraseña:",
      "Copy" := "Copiar",
      "Copied" := "Copiado",
      "Link copied to clipboard!" := "¡Enlace copiado al portapapeles!",
      "Create new password" := "Crear nueva contraseña"
    ]

  /** Spanish, view page section. */
  const EsView: map<string, string> :=
    map[
      "This is the password that was shared with you" := "Esta es la contraseña que fue compartida contigo",
      "Click on the password to view it or on the button to copy" := "Haz clic en la contraseña para verla o en el botón para copiar",
      "Loading..." := "Cargando...",
      "This password will be available until" := "Esta contraseña estará disponible hasta",
      "or for" := "o por",
      "more views." := "visualizaciones más.",
      "Created on:" := "Creada el:",
      "If you want to revoke access to this password, click" := "Si quieres revocar el acceso a esta contraseña, haz clic en",
      "Revoke" := "Revocar",
      "Password Unavailable" := "Contraseña Indisponible"
    ]

  /** Spanish, security messages section. */
  const EsSecurity: map<string, string> :=
    map[
      "All passwords are encrypted before storage and are only available to those with the secret link." := "Todas las contraseñas están encriptadas antes del almacenamiento y solo están disponibles para aquellos con el enlace secreto.",
      "Once expired, encrypted passwords are deleted from the database." := "Una vez expiradas, las contraseñas encriptadas se eliminan de la base de datos.",
      "The system ensures maximum security through end-to-end encryption." := "El sistema garantiza máxima seguridad a través de encriptación de extremo a extremo.",
      "Your data is protected with the highest digital security standards." := "Tus datos están protegidos con los más altos estándares de seguridad digital.",
      "Passwords are generated using secure and random algorithms." := "Las contraseñas se generan usando algoritmos seguros y aleatorios.",
      "No personal information is stored on our servers." := "No se almacena información personal en nuestros servidores."
    ]

  /** Spanish, error messages section. */
  const EsErrors: map<string, string> :=
    map[
      "The password must be at least 4 characters." := "La contraseña debe tener al menos 4 caracteres.",
      "The password cannot be more than 128 characters." := "La contraseña no puede tener más de 128 caracteres.",
      "Please enter a password before generating the link." := "Por favor ingresa una contraseña antes de generar el enlace.",
      "Error generating password. Try again." := "Error al generar contraseña. Intenta de nuevo.",
      "Error generating link. Try again." := "Error al generar enlace. Intenta de nuevo."
    ]

  /** The Brazilian Portuguese table, section by section as the source lists it. */
  const PtBRTable: map<string, string> :=
    PtBRApp + PtBRMain + PtBRShare + PtBRView + PtBRSecurity + PtBRErrors

  /** The Spanish table, section by section as the source lists it. */
  const EsTable: map<string, string> :=
    EsApp + EsMain + EsShare + EsView + EsSecurity + EsErrors

  /**
    `translation?.[key] || key` as the hook intends it: the table's value
    when the key is present with a non-empty value, and the key itself
    otherwise. `SourceLookup` below adds what JavaScript also finds on the
    table object: the members it inherits from `Object.prototype`.
   */
  function Lookup(table: map<string, string>, key: string): (r: string)
    ensures r == key || (key in table && r == table[key])
    ensures r == [] ==> key == []
  {
    if key in table && table[key] != "" then table[key] else key
  }

  /**
    The names every object literal inherits from `Object.prototype`. Indexing
    a table with one of them finds the inherited member even though the table
    does not list it.
   */
  const ObjectPrototypeNames: set<string> := {
    "constructor", "hasOwnProperty", "isPrototypeOf", "propertyIsEnumerable",
    "toLocaleString", "toString", "valueOf", "__proto__",
    "__defineGetter__", "__defineSetter__", "__lookupGetter__", "__lookupSetter__"
  }

  /**
    What `translation?.[key] || key` can evaluate to: a string, or a member
    inherited from `Object.prototype` (a function, or the prototype object
    itself for `__proto__`), which is truthy and so escapes the fallback.
   */
  datatype JsValue = Str(s: string) | Inherited(name: string)

  /**
    `translation?.[key] || key` as JavaScript evaluates it on the table's
    object literal: an own non-empty value, else an inherited member when
    the key names one, else the key.
   */
  function SourceLookup(table: map<string, string>, key: string): (v: JsValue)
    ensures key !in ObjectPrototypeNames ==> v == Str(Lookup(table, key))
    ensures key in table ==> v == Str(Lookup(table, key))
    ensures key in ObjectPrototypeNames && key !in table ==> v == Inherited(key)
  {
    if key in table && table[key] != "" then Str(table[key])
    else if key !in table && key in ObjectPrototypeNames then Inherited(key)
    else Str(key)
  }

  /** `t(key)`: the key itself in English, a lookup in the locale's table elsewhere. */
  function Translate(l: Locale, key: string): (r: string)
    ensures r == [] ==> key == []
  {
    match l
    case En => key
    case PtBR => Lookup(PtBRTable, key)
    case Es => Lookup(EsTable, key)
  }

  /**
    In a table without empty values, a lookup returns the table's value for
    every key the table has and the key itself for every other key.
   */
  lemma LookupExact(table: map<string, string>, key: string)
    requires NonEmptyValues(table)
    ensures key in table ==> Lookup(table, key) == table[key]
    ensures key !in table ==> Lookup(table, key) == key
  {
  }

  /** Detection recovers each locale from its own tag. */
  lemma DetectCode(l: Locale)
    ensures Detect(Some(l.Code())) == l
  {
    match l
    case En =>
      assert "en"[..2][1] == 'n';
    case PtBR =>
      assert "pt-BR"[..2] == "pt";
    case Es =>
      assert "es"[..2] == "es";
  }

  /** True when no value of `m` is the empty string. */
  predicate NonEmptyValues(m: map<string, string>) {
    forall k :: k in m ==> m[k] != ""
  }

  /** A merge of two tables without empty values has none either. */
  lemma MergeNonEmptyValues(a: map<string, string>, b: map<string, string>)
    requires NonEmptyValues(a) && NonEmptyValues(b)
    ensures NonEmptyValues(a + b)
  {
  }

  // Each section of the Brazilian Portuguese table has the same keys as the
  // matching Spanish section, and neither has an empty value. The facts are
  // stated section by section, not table by table, because a whole literal
  // table is too large for the solver to reason about in one proof; the
  // lemmas below are alike on purpose.

  lemma SectionAppAgrees()
    ensures PtBRApp.Keys == EsApp.Keys
    ensures NonEmptyValues(PtBRApp) && NonEmptyValues(EsApp)
  {
    SectionAppKeys();
    SectionAppValues();
  }

  lemma SectionAppKeys()
    ensures PtBRApp.Keys == EsApp.Keys
  {
  }

  lemma SectionAppValues()
    ensures NonEmptyValues(PtBRApp) && NonEmptyValues(EsApp)
  {
  }

  lemma SectionMainAgrees()
    ensures PtBRMain.Keys == EsMain.Keys
    ensures NonEmptyValues(PtBRMain) && NonEmptyValues(EsMain)
  {
    SectionMainKeys();
    SectionMainValues();
  }

  lemma SectionMainKeys()
    ensures PtBRMain.Keys == EsMain.Keys
  {
  }

  lemma SectionMainValues()
    ensures NonEmptyValues(PtBRMain) && NonEmptyValues(EsMain)
  {
    PtBRMainValues();
    EsMainValues();
  }

  lemma PtBRMainValues()
    ensures NonEmptyValues(PtBRMain)
  {
  }

  lemma EsMainValues()
    ensures NonEmptyValues(EsMain)
  {
  }

  lemma SectionShareAgrees()
    ensures PtBRShare.Keys == EsShare.Keys
    ensures NonEmptyValues(PtBRShare) && NonEmptyValues(EsShare)
  {
    SectionShareKeys();
    SectionShareValues();
  }

  lemma SectionShareKeys()
    ensures PtBRShare.Keys == EsShare.Keys
  {
  }

  lemma SectionShareValues()
    ensures NonEmptyValues(PtBRShare) && NonEmptyValues(EsShare)
  {
  }

  lemma SectionViewAgrees()
    ensures PtBRView.Keys == EsView.Keys
    ensures NonEmptyValues(PtBRView) && NonEmptyValues(EsView)
  {
    SectionViewKeys();
    SectionViewValues();
  }

  lemma SectionViewKeys()
    ensures PtBRView.Keys == EsView.Keys
  {
  }

  lemma SectionViewValues()
    ensures NonEmptyValues(PtBRView) && NonEmptyValues(EsView)
  {
  }

  lemma SectionSecurityAgrees()
    ensures PtBRSecurity.Keys == EsSecurity.Keys
    ensures NonEmptyValues(PtBRSecurity) && NonEmptyValues(EsSecurity)
  {
    SectionSecurityKeys();
    SectionSecurityValues();
  }

  lemma SectionSecurityKeys()
    ensures PtBRSecurity.Keys == EsSecurity.Keys
  {
  }

  lemma SectionSecurityValues()
    ensures NonEmptyValues(PtBRSecurity) && NonEmptyValues(EsSecurity)
  {
  }

  lemma SectionErrorsAgrees()
    ensures PtBRErrors.Keys == EsErrors.Keys
    ensures NonEmptyValues(PtBRErrors) && NonEmptyValues(EsErrors)
  {
    SectionErrorsKeys();
    SectionErrorsValues();
  }

  lemma SectionErrorsKeys()
    ensures PtBRErrors.Keys == EsErrors.Keys
  {
  }

  lemma SectionErrorsValues()
    ensures NonEmptyValues(PtBRErrors) && NonEmptyValues(EsErrors)
  {
  }

  /** Merging six sections pairwise with equal key sets gives tables with equal key sets. */
  lemma MergedKeysAgree(a: map<string, string>, b: map<string, string>, c: map<string, string>, d: map<string, string>, e: map<string, string>, f: map<string, string>,
                        a': map<string, string>, b': map<string, string>, c': map<string, string>, d': map<string, string>, e': map<string, string>, f': map<string, string>)
    requires a.Keys == a'.Keys && b.Keys == b'.Keys && c.Keys == c'.Keys
    requires d.Keys == d'.Keys && e.Keys == e'.Keys && f.Keys == f'.Keys
    ensures (a + b + c + d + e + f).Keys == (a' + b' + c' + d' + e' + f').Keys
  {
  }

  /** Merging six sections without empty values gives a table without empty values. */
  lemma MergedNonEmptyValues(a: map<string, string>, b: map<string, string>, c: map<string, string>, d: map<string, string>, e: map<string, string>, f: map<string, string>)
    requires NonEmptyValues(a) && NonEmptyValues(b) && NonEmptyValues(c)
    requires NonEmptyValues(d) && NonEmptyValues(e) && NonEmptyValues(f)
    ensures NonEmptyValues(a + b + c + d + e + f)
  {
    MergeNonEmptyValues(a, b);
    MergeNonEmptyValues(a + b, c);
    MergeNonEmptyValues(a + b + c, d);
    MergeNonEmptyValues(a + b + c + d, e);
    MergeNonEmptyValues(a + b + c + d + e, f);
  }

  /** Both tables translate exactly the same English keys. */
  lemma TablesShareKeys()
    ensures PtBRTable.Keys == EsTable.Keys
  {
    SectionAppAgrees();
    SectionMainAgrees();
    SectionShareAgrees();
    SectionViewAgrees();
    SectionSecurityAgrees();
    SectionErrorsAgrees();
    MergedKeysAgree(PtBRApp, PtBRMain, PtBRShare, PtBRView, PtBRSecurity, PtBRErrors,
                    EsApp, EsMain, EsShare, EsView, EsSecurity, EsErrors);
  }

  // Neither whole table has an empty value.

  lemma PtBRValuesNonEmpty()
    ensures NonEmptyValues(PtBRTable)
  {
    SectionAppValues();
    SectionMainValues();
    SectionShareValues();
    SectionViewValues();
    SectionSecurityValues();
    SectionErrorsValues();
    MergedNonEmptyValues(PtBRApp, PtBRMain, PtBRShare, PtBRView, PtBRSecurity, PtBRErrors);
  }

  lemma EsValuesNonEmpty()
    ensures NonEmptyValues(EsTable)
  {
    SectionAppValues();
    SectionMainValues();
    SectionShareValues();
    SectionViewValues();
    SectionSecurityValues();
    SectionErrorsValues();
    MergedNonEmptyValues(EsApp, EsMain, EsShare, EsView, EsSecurity, EsErrors);
  }

  // In a table locale, `t` translates a key the table has to the table's
  // value and any other key to itself.

  lemma PtBRLookup(key: string)
    ensures key in PtBRTable ==> Lookup(PtBRTable, key) == PtBRTable[key]
    ensures key !in PtBRTable ==> Lookup(PtBRTable, key) == key
  {
    PtBRValuesNonEmpty();
    LookupExact(PtBRTable, key);
  }

  lemma EsLookup(key: string)
    ensures key in EsTable ==> Lookup(EsTable, key) == EsTable[key]
    ensures key !in EsTable ==> Lookup(EsTable, key) == key
  {
    EsValuesNonEmpty();
    LookupExact(EsTable, key);
  }

  /** Until detection runs, `t` is the identity. */
  lemma InitialIsIdentity(key: string)
    ensures Translate(Initial, key) == key
  {
  }

  /** Merging keeps every key of both operands. */
  lemma MergeKeys(a: map<string, string>, b: map<string, string>)
    ensures (a + b).Keys == a.Keys + b.Keys
  {
  }

  // A table's keys are those of its sections.

  lemma PtBRKeysBySection()
    ensures PtBRTable.Keys ==
      PtBRApp.Keys + PtBRMain.Keys + PtBRShare.Keys + PtBRView.Keys + PtBRSecurity.Keys + PtBRErrors.Keys
  {
    MergeKeys(PtBRApp, PtBRMain);
    MergeKeys(PtBRApp + PtBRMain, PtBRShare);
    MergeKeys(PtBRApp + PtBRMain + PtBRShare, PtBRView);
    MergeKeys(PtBRApp + PtBRMain + PtBRShare + PtBRView, PtBRSecurity);
    MergeKeys(PtBRApp + PtBRMain + PtBRShare + PtBRView + PtBRSecurity, PtBRErrors);
  }

  lemma EsKeysBySection()
    ensures EsTable.Keys ==
      EsApp.Keys + EsMain.Keys + EsShare.Keys + EsView.Keys + EsSecurity.Keys + EsErrors.Keys
  {
    MergeKeys(EsApp, EsMain);
    MergeKeys(EsApp + EsMain, EsShare);
    MergeKeys(EsApp + EsMain + EsShare, EsView);
    MergeKeys(EsApp + EsMain + EsShare + EsView, EsSecurity);
    MergeKeys(EsApp + EsMain + EsShare + EsView + EsSecurity, EsErrors);
  }

  /** A key of the right operand of a merge takes its value from there. */
  lemma MergeLookupRight(a: map<string, string>, b: map<string, string>, k: string)
    requires k in b
    ensures k in a + b && (a + b)[k] == b[k]
  {
  }

  // An error message is translated to its entry in the error-message section.

  lemma PtBRErrorLookup(key: string)
    requires key in PtBRErrors
    ensures Lookup(PtBRTable, key) == PtBRErrors[key]
  {
    SectionErrorsAgrees();
    MergeLookupRight(PtBRApp + PtBRMain + PtBRShare + PtBRView + PtBRSecurity, PtBRErrors, key);
  }

  lemma EsErrorLookup(key: string)
    requires key in EsErrors
    ensures Lookup(EsTable, key) == EsErrors[key]
  {
    SectionErrorsAgrees();
    MergeLookupRight(EsApp + EsMain + EsShare + EsView + EsSecurity, EsErrors, key);
  }

  /** True when distinct keys of `m` have distinct values. */
  predicate Injective(m: map<string, string>) {
    forall k1, k2 :: k1 in m && k2 in m && k1 != k2 ==> m[k1] != m[k2]
  }

  // No two error messages share a translation.

  lemma PtBRErrorsInjective()
    ensures Injective(PtBRErrors)
  {
  }

  lemma EsErrorsInjective()
    ensures Injective(EsErrors)
  {
  }

  // Distinct error messages stay distinct once translated.

  lemma PtBRErrorTranslationsDistinct(k1: string, k2: string)
    requires k1 in PtBRErrors && k2 in PtBRErrors && k1 != k2
    ensures Lookup(PtBRTable, k1) != Lookup(PtBRTable, k2)
  {
    PtBRErrorsInjective();
    PtBRErrorLookup(k1);
    PtBRErrorLookup(k2);
  }

  lemma EsErrorTranslationsDistinct(k1: string, k2: string)
    requires k1 in EsErrors && k2 in EsErrors && k1 != k2
    ensures Lookup(EsTable, k1) != Lookup(EsTable, k2)
  {
    EsErrorsInjective();
    EsErrorLookup(k1);
    EsErrorLookup(k2);
  }

  /** The Brazilian Portuguese table does not list `toString`. */
  lemma ToStringNotInPtBR()
    ensures "toString" !in PtBRTable
  {
    PtBRKeysBySection();
    ToStringNotInPtBRApp();
    ToStringNotInPtBRMain();
    ToStringNotInPtBRShare();
    ToStringNotInPtBRView();
    ToStringNotInPtBRSecurity();
    ToStringNotInPtBRErrors();
  }

  // No section lists it either; one lemma per section keeps each proof small.

  lemma ToStringNotInPtBRApp()
    ensures "toString" !in PtBRApp
  {
  }

  lemma ToStringNotInPtBRMain()
    ensures "toString" !in PtBRMain
  {
  }

  lemma ToStringNotInPtBRShare()
    ensures "toString" !in PtBRShare
  {
  }

  lemma ToStringNotInPtBRView()
    ensures "toString" !in PtBRView
  {
  }

  lemma ToStringNotInPtBRSecurity()
    ensures "toString" !in PtBRSecurity
  {
  }

  lemma ToStringNotInPtBRErrors()
    ensures "toString" !in PtBRErrors
  {
  }

  /**
    The source's lookup escapes its own fallback: in Brazilian Portuguese,
    `t("toString")` yields the function inherited from `Object.prototype`,
    where the fallback promises the key itself.
   */
  lemma SourceLookupEscapesFallback()
    ensures SourceLookup(PtBRTable, "toString") == Inherited("toString")
    ensures SourceLookup(PtBRTable, "toString") != Str(Lookup(PtBRTable, "toString"))
  {
    ToStringNotInPtBR();
  }
}
