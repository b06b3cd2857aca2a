/** The notifications the pages raise. */
module Toasts {
  /** A notification: `destructive` marks the error style. */
  datatype Toast = Toast(destructive: bool, title: string, description: string)

  const NotImplementedTitle := "Función no implementada"
  const NotImplementedDescription := "En breve se agregara la función"
}
