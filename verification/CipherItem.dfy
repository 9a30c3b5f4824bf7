/** The display-only view of a decrypted cipher (DecryptedItem). */
module CipherItem {

  datatype CipherType = Login | SecureNote | Card | Identity

  datatype Item = Item(
    id: string,
    kind: CipherType,
    folderId: string,
    organizationId: string,
    favorite: bool,
    name: string,
    username: string,
    primaryUri: string,
    hasTotp: bool,
    hasPassword: bool,
    hasNotes: bool,
    hasDetails: bool)
}
