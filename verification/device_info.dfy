/** The host description a BOINC client sends with every request. */
module Device {

  datatype HostInfo = HostInfo(osName: string, osVersion: string, hostCpid: string)
}
