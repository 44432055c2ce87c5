/** The key/value store of the page (app.js:46-88): one object store `kv`
    in the `app-db` IndexedDB database, keyed by `key`. The database itself
    is not modelled; the store is a map, and whether the database can be
    opened is a flag of the page. */
module Store {
  /** What the page keeps in the store: a theme name, or the executive's
      number and name. */
  datatype Value = Str(text: string) | Ejecutivo(cedula: string, name: string)

  const EjecutivoKey := "ejecutivo"
  const ThemeKey := "theme"

  /** Why a store operation rejects: the database could not be opened. */
  datatype StoreError = Unavailable
}
