/** The payment-QR settings form (src/app/admin/settings/page.tsx). */
module SettingsPage {
  import opened Wrappers
  import opened Types
  import opened DocStore

  /** `settingsFormSchema`: `qrCodeUrl` must be non-empty. */
  predicate SettingsValid(qrCodeUrl: string)
  {
    |qrCodeUrl| >= 1
  }

  /** The document a save writes: `qrCodeUrl` and nothing else. */
  function ConfigDoc(qrCodeUrl: string): (d: Doc)
    ensures d.Keys == {"qrCodeUrl"} && d["qrCodeUrl"] == Str(qrCodeUrl)
  {
    map["qrCodeUrl" := Str(qrCodeUrl)]
  }

  /** `useDoc<PaymentConfig>` data: a missing or non-string `qrCodeUrl` reads as the falsy "". */
  function DecodeConfig(d: Option<Doc>): (c: Option<PaymentConfig>)
    ensures c.Some? <==> d.Some?
    ensures d.Some? && "qrCodeUrl" in d.value && d.value["qrCodeUrl"].Str? ==> c.value.qrCodeUrl == d.value["qrCodeUrl"].s
    ensures d.Some? && !("qrCodeUrl" in d.value && d.value["qrCodeUrl"].Str?) ==> c.value.qrCodeUrl == ""
  {
    if d.None? then None
    else if "qrCodeUrl" in d.value && d.value["qrCodeUrl"].Str? then Some(PaymentConfig(d.value["qrCodeUrl"].s))
    else Some(PaymentConfig(""))
  }

  /** The form field after the loading effect: the stored value once the config has loaded. */
  function ResetOnLoad(config: Option<PaymentConfig>, current: string): (v: string)
    ensures config.Some? ==> v == config.value.qrCodeUrl
    ensures config.None? ==> v == current
  {
    if config.Some? then config.value.qrCodeUrl else current
  }

  datatype SettingsOutcome =
    | InvalidQrCode      // the schema rejected the value; `onSubmit` is not called
    | StoreUnavailable   // destructive "Error updating settings" toast
    | SettingsSaved      // "Settings Updated" toast, issued without waiting for the write

  /** `form.handleSubmit(onSubmit)`; the write is non-blocking, so its outcome never reaches the page. */
  method SubmitSettings(store: Store?, qrCodeUrl: string) returns (outcome: SettingsOutcome)
    modifies store
    ensures !SettingsValid(qrCodeUrl) ==> outcome == InvalidQrCode
    ensures SettingsValid(qrCodeUrl) && store == null ==> outcome == StoreUnavailable
    ensures outcome == SettingsSaved <==> SettingsValid(qrCodeUrl) && store != null
    ensures outcome == SettingsSaved ==> store.docs == old(store.docs)[PaymentConfigPath() := ConfigDoc(qrCodeUrl)]
    ensures outcome != SettingsSaved && store != null ==> store.docs == old(store.docs)
  {
    if !SettingsValid(qrCodeUrl) {
      return InvalidQrCode;
    }
    if store == null {
      return StoreUnavailable;
    }
    store.Set(PaymentConfigPath(), ConfigDoc(qrCodeUrl));
    outcome := SettingsSaved;
  }

  /**
   * A save replaces the whole `payment_qr/current` document: no field of the
   * old one survives, and reloading the page refills the form with the saved value.
   */
  lemma SavedConfigReplacesAndReloads(docs: map<Path, Doc>, qrCodeUrl: string, current: string)
    ensures var after := docs[PaymentConfigPath() := ConfigDoc(qrCodeUrl)];
      && after[PaymentConfigPath()].Keys == {"qrCodeUrl"}
      && ResetOnLoad(DecodeConfig(LoadedDoc(after, PaymentConfigPath())), current) == qrCodeUrl
  {
  }

  datatype PreviewElement = PreviewSkeleton | QrImage(src: string) | NoQrCodeText

  /** The preview column (lines 121-130): the skeleton slot, then the image-or-text slot. */
  function Preview(watched: string, isLoading: bool): (r: seq<PreviewElement>)
    ensures |r| == 1
    ensures r[0].QrImage? <==> watched != ""
    ensures r[0].QrImage? ==> r[0].src == watched
    ensures r[0] == NoQrCodeText <==> watched == "" && !isLoading
    ensures r[0] == PreviewSkeleton <==> watched == "" && isLoading
  {
    var skeletonSlot := if isLoading && watched == "" then [PreviewSkeleton] else [];
    var mainSlot := if watched != "" then [QrImage(watched)] else if !isLoading then [NoQrCodeText] else [];
    skeletonSlot + mainSlot
  }
}
