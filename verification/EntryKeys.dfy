/** What an entry can hold and what the export has a place for. */
module EntryKeys {
  import Bitwarden
  import EntryJson

  /** Each modelled member of an entry, but for the notes and the two lists, which travel elsewhere,
    is a key of the export, and so is the address; nothing else is. */
  lemma ExportedKeysExactly(key: string)
    ensures key in Bitwarden.Keys() <==>
      key == "url" || (key in EntryJson.Known() && key !in {"notes", "custom_fields", "tags"})
  {
  }
}
